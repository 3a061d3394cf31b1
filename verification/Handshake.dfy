/**
 * The launch and attach handshakes and the resume wait (`lldb-backend/src/backend.rs`), as
 * programs of client operations run against the shared system of `ReadLoops`. Every await is
 * a point where other callers, the reader and the adapter may act.
 */
module Handshakes {
  import opened Types
  import opened Clients
  import opened ReadLoops
  import W = StopWaiters

  datatype Command =
    | Initialize
    | Launch
    | Attach
    | SetBreakpoints(file: string)
    | SetFunctionBreakpoints
    | SetExceptionBreakpoints
    | ConfigurationDone
    | Resume

  /** What is asked of a response: nothing, success, or success under a given command name. */
  datatype Check = Unchecked | Success | SuccessOf(command: string)

  datatype Instr =
    | Send(cmd: Command, check: Check)
    | SendAsync(cmd: Command)
    | WaitInit
    | RegisterWaiter
    | AwaitAsync
    | AwaitStop

  datatype LaunchSpec = LaunchSpec(files: seq<string>, functions: seq<string>, stopOnEntry: bool)

  /** The loop over the files whose breakpoints are flushed. */
  function FlushFiles(files: seq<string>): (r: seq<Instr>)
    ensures |r| == |files|
    ensures forall i | 0 <= i < |r| :: r[i] == Send(SetBreakpoints(files[i]), SuccessOf("setBreakpoints"))
  {
    if files == [] then []
    else [Send(SetBreakpoints(files[0]), SuccessOf("setBreakpoints"))] + FlushFiles(files[1..])
  }

  /** `run_launch`. */
  function LaunchProgram(spec: LaunchSpec): seq<Instr> {
    [Send(Initialize, Success), SendAsync(Launch), WaitInit]
    + FlushFiles(spec.files)
    + (if spec.functions != [] then [Send(SetFunctionBreakpoints, Success)] else [])
    + LaunchTail(spec.stopOnEntry)
  }

  /** With `stop_on_entry` the waiter is registered before `configurationDone` is sent. */
  function LaunchTail(stopOnEntry: bool): seq<Instr> {
    if stopOnEntry then
      [Send(SetExceptionBreakpoints, Unchecked), RegisterWaiter, Send(ConfigurationDone, Unchecked),
       AwaitAsync, AwaitStop]
    else
      [Send(SetExceptionBreakpoints, Unchecked), Send(ConfigurationDone, Unchecked), AwaitAsync]
  }

  /** `run_attach`: the waiter is registered only after the attach response. */
  const ATTACH_PROGRAM: seq<Instr> :=
    [Send(Initialize, Success), SendAsync(Attach), WaitInit,
     Send(SetExceptionBreakpoints, Unchecked), Send(ConfigurationDone, Unchecked),
     AwaitAsync, RegisterWaiter, AwaitStop]

  /** `resume_and_wait`: the waiter is registered before the request is sent. */
  const RESUME_PROGRAM: seq<Instr> := [RegisterWaiter, Send(Resume, Unchecked), AwaitStop]

  /** `Lost` is a waiter whose sender was dropped; each program maps it to a terminated outcome. */
  datatype Result =
    | Done(outcome: Option<StopOutcome>)
    | Lost
    | Aborted(error: BackendError, cause: Option<BackendError>)
    | Cancelled

  /** What `run_launch` returns on success. */
  datatype LaunchOutcome = LaunchStopped(info: StopInfo) | LaunchRunning | LaunchExited(code: Option<int>)

  function LaunchResult(r: Result): Option<LaunchOutcome> {
    match r
    case Done(None) => Some(LaunchRunning)
    case Done(Some(Stopped(info))) => Some(LaunchStopped(info))
    case Done(Some(Exited(code))) => Some(LaunchExited(code))
    case Done(Some(Terminated)) => Some(LaunchExited(None))
    case Lost => Some(LaunchExited(None))
    case _ => None
  }

  /** What `run_attach` and `resume_and_wait` return on success: a lost waiter counts as terminated. */
  function WaitResult(r: Result): Option<StopOutcome> {
    match r
    case Done(Some(outcome)) => Some(outcome)
    case Lost => Some(Terminated)
    case _ => None
  }

  datatype Cursor = Between | InCall(k: nat, written: bool) | Parked(p: nat)

  /** The observable history: stop-like dispatches, waiter registrations, frames of this program. */
  datatype Obs = Dispatched(outcome: StopOutcome) | Registration | Wrote(cmd: Command)

  /** `own` are the calls this program made, `callOf` the one made by each instruction. */
  datatype Shake = Shake(
    sys: System, prog: seq<Instr>, pc: nat, cursor: Cursor, async: Option<nat>, waiter: Option<nat>,
    result: Option<Result>, own: set<nat>, callOf: map<nat, nat>, obs: seq<Obs>)

  function Begin(prog: seq<Instr>): Shake {
    Shake(STARTED, prog, 0, Between, None, None, None, {}, map[], [])
  }

  datatype HOp = Own(writes: bool) | Env(op: SysOp) | Cancel

  predicate Passes(reply: Reply, check: Check) {
    && reply.Ok?
    && (check.Success? ==> reply.response.success)
    && (check.SuccessOf? ==> reply.response.success && reply.response.command == check.command)
  }

  predicate SysFine(s: System) {
    WellFormed(s.client) && s.stop.WellFormed()
  }

  function ObsOf(op: W.Op): Obs {
    match op
    case Register => Registration
    case Produce(outcome) => Dispatched(outcome)
  }

  /** Let the system take a step, observing what it did to the stop waiter. */
  ghost function Via(h: Shake, op: SysOp): (r: Shake)
    requires SysFine(h.sys) && SysEnabled(h.sys, op)
    ensures SysFine(r.sys)
  {
    var t := SysStep(h.sys, op);
    h.(sys := t,
       obs := if |t.stopLog| > |h.sys.stopLog| then h.obs + [ObsOf(t.stopLog[|h.sys.stopLog|])] else h.obs)
  }

  function Next(h: Shake): Shake {
    h.(pc := h.pc + 1, cursor := Between)
  }

  /** The error a failed request is reported as: a resume keeps the send error, the handshakes wrap it. */
  function RequestError(h: Shake): BackendError {
    if h.pc < |h.prog| && (h.prog[h.pc].Send? || h.prog[h.pc].SendAsync?) && h.prog[h.pc].cmd.Resume? then SendFailed else Dap
  }

  /**
   * How a call that does not pass ends the program: the failed request, the dropped sender of an
   * asynchronous one, a response of another type, or a response without success.
   */
  function Fail(h: Shake, call: Call, check: Check): Shake {
    var reply := Received(call);
    h.(result := Some(
         if h.pc < |h.prog| && h.prog[h.pc].AwaitAsync? && call.sent == [] then Aborted(Closed, None)
         else if reply.Err? then Aborted(RequestError(h), Some(reply.error))
         else if check.SuccessOf? && reply.response.command != check.command then Aborted(Protocol, None)
         else Aborted(Dap, None)))
  }

  /** One step of a request in call `k`, up to and including the write. */
  ghost function CallStep(h: Shake, k: nat, cmd: Command, writes: bool): Option<Shake>
    requires SysFine(h.sys)
  {
    if Enabled(h.sys.client, Register(k)) then Some(Via(h, Caller(Register(k))))
    else if !Enabled(h.sys.client, WriteOk(k)) then None
    else if writes then
      var t := Via(h, Caller(WriteOk(k)));
      Some(t.(cursor := InCall(k, true), obs := t.obs + [Wrote(cmd)]))
    else Some(Via(h, Caller(WriteFail(k))).(result := Some(Aborted(RequestError(h), Some(SendFailed)))))
  }

  /** Await call `k` and check the reply. */
  ghost function AwaitStep(h: Shake, k: nat, check: Check): Option<Shake>
    requires SysFine(h.sys)
  {
    if !Enabled(h.sys.client, Await(k)) then None
    else
      var reply := Received(h.sys.client.calls[k]);
      var t := Via(h, Caller(Await(k)));
      Some(if Passes(reply, check) then Next(t) else Fail(t, h.sys.client.calls[k], check))
  }

  /** Start a call: `next_seq`. */
  ghost function StartCall(h: Shake, guarded: bool): Shake
    requires SysFine(h.sys)
  {
    var k := |h.sys.client.calls|;
    Via(h, Caller(NextSeq(guarded))).(cursor := InCall(k, false), own := h.own + {k}, callOf := h.callOf[h.pc := k])
  }

  /** The program's own next step; `None` while it waits or once it is over. */
  ghost function OwnStep(h: Shake, writes: bool): (r: Option<Shake>)
    requires SysFine(h.sys)
    ensures r.Some? ==> SysFine(r.value.sys)
  {
    if h.result.Some? then None
    else if h.pc >= |h.prog| then Some(h.(result := Some(Done(None))))
    else match h.prog[h.pc]
      case Send(cmd, check) =>
        (match h.cursor
         case Between => Some(StartCall(h, true))
         case InCall(k, false) => CallStep(h, k, cmd, writes)
         case InCall(k, true) => AwaitStep(h, k, check)
         case Parked(_) => None)
      case SendAsync(cmd) =>
        (match h.cursor
         case Between => Some(StartCall(h, false))
         case InCall(k, false) => CallStep(h, k, cmd, writes)
         case InCall(k, true) => Some(Next(h.(async := Some(k))))
         case Parked(_) => None)
      case WaitInit =>
        (match h.cursor
         case Between =>
           if h.sys.latch.fired then Some(Next(h))
           else Some(Via(h, Park).(cursor := Parked(h.sys.latch.parks)))
         case Parked(p) => if h.sys.latch.Resolved(p) then Some(Next(h)) else None
         case InCall(_, _) => None)
      case RegisterWaiter => Some(Next(Via(h, RegisterStop).(waiter := Some(|h.sys.stop.regs|))))
      case AwaitAsync => if h.async.Some? then AwaitStep(h, h.async.value, Success) else None
      case AwaitStop =>
        if h.waiter.None? then None
        else match W.Observed(h.sys.stop, h.waiter.value)
          case Got(outcome) => Some(h.(result := Some(Done(Some(outcome)))))
          case Orphaned => Some(h.(result := Some(Lost)))
          case _ => None
  }

  /** Operations of this program's own calls are not the environment's to make. */
  predicate Foreign(own: set<nat>, op: SysOp) {
    op.Caller? && !op.op.NextSeq? && IsCallerOp(op.op) ==> op.op.k !in own
  }

  ghost function HStep(h: Shake, op: HOp): (r: Option<Shake>)
    requires SysFine(h.sys)
    ensures r.Some? ==> SysFine(r.value.sys)
  {
    match op
    case Own(writes) => OwnStep(h, writes)
    case Env(o) => if SysEnabled(h.sys, o) && Foreign(h.own, o) then Some(Via(h, o)) else None
    case Cancel =>
      // the future is dropped at an await: a guarded call in flight aborts
      if h.result.Some? then None
      else if !h.cursor.InCall? then Some(h.(result := Some(Cancelled)))
      else if Enabled(h.sys.client, Drop(h.cursor.k)) then
        Some(Via(h, Caller(Drop(h.cursor.k))).(result := Some(Cancelled)))
      else None
  }

  ghost function HRun(prog: seq<Instr>, ops: seq<HOp>): (r: Option<Shake>)
    ensures r.Some? ==> SysFine(r.value.sys)
  {
    if ops == [] then Some(Begin(prog))
    else
      var h := HRun(prog, ops[..|ops| - 1]);
      if h.None? then None else HStep(h.value, ops[|ops| - 1])
  }

  // ----- projections of the history

  function Commands(prog: seq<Instr>): seq<Command> {
    if prog == [] then []
    else
      var i := prog[|prog| - 1];
      Commands(prog[..|prog| - 1]) + (if i.Send? || i.SendAsync? then [i.cmd] else [])
  }

  function Frames(obs: seq<Obs>): seq<Command> {
    if obs == [] then []
    else
      var o := obs[|obs| - 1];
      Frames(obs[..|obs| - 1]) + (if o.Wrote? then [o.cmd] else [])
  }

  function StopOps(obs: seq<Obs>): seq<W.Op> {
    if obs == [] then []
    else
      var o := obs[|obs| - 1];
      StopOps(obs[..|obs| - 1]) +
      (match o
       case Dispatched(outcome) => [W.Produce(outcome)]
       case Registration => [W.Register]
       case Wrote(_) => [])
  }

  /** The stop-like outcomes dispatched so far, in order. */
  function Dispatches(obs: seq<Obs>): seq<StopOutcome> {
    if obs == [] then []
    else
      var o := obs[|obs| - 1];
      Dispatches(obs[..|obs| - 1]) + (if o.Dispatched? then [o.outcome] else [])
  }

  lemma {:induction false} ProjectionsExtend(obs: seq<Obs>, o: Obs)
    ensures Frames(obs + [o]) == Frames(obs) + Frames([o])
    ensures StopOps(obs + [o]) == StopOps(obs) + StopOps([o])
    ensures Dispatches(obs + [o]) == Dispatches(obs) + Dispatches([o])
  {
    assert (obs + [o])[..|obs|] == obs;
    assert [o][..0] == [];
  }

  // ----- the invariant of every program

  ghost predicate CursorGood(h: Shake) {
    match h.cursor
    case Between => true
    case Parked(p) => p < h.sys.latch.parks && h.pc < |h.prog| && h.prog[h.pc].WaitInit?
    case InCall(k, written) =>
      && k < |h.sys.client.calls| && k in h.own
      && h.pc < |h.prog| && (h.prog[h.pc].Send? || h.prog[h.pc].SendAsync?)
      && (h.result.None? ==>
            var phase := h.sys.client.calls[k].phase;
            && h.sys.client.calls[k].guarded == h.prog[h.pc].Send?
            && (written ==> phase.Written?)
            && (!written ==> phase.Numbered? || phase.Registered?))
  }

  ghost predicate OwnGood(h: Shake)
    requires h.pc <= |h.prog|
  {
    && (forall k | k in h.own :: k < |h.sys.client.calls|)
    && (h.async.Some? ==> h.async.value in h.own)
    && (h.waiter.Some? ==> h.waiter.value < |h.sys.stop.regs|)
    && (h.waiter.None? ==> forall j | 0 <= j < h.pc :: !h.prog[j].RegisterWaiter?)
    && (forall j | 0 <= j < h.pc :: !h.prog[j].AwaitStop?)
  }

  /** Passing the `initialized` wait took the event, or a second waiter displacing the first. */
  predicate GateGood(h: Shake)
    requires h.pc <= |h.prog|
  {
    && (!h.sys.latch.fired && h.sys.latch.parks > 0 ==> h.sys.latch.parked == Some(h.sys.latch.parks - 1))
    && (forall j | 0 <= j < h.pc && h.prog[j].WaitInit? :: h.sys.latch.fired || h.sys.latch.parks > 1)
  }

  ghost predicate HistoryGood(h: Shake)
    requires h.pc <= |h.prog|
  {
    && Frames(h.obs) == Commands(h.prog[..h.pc]) +
                        (if h.cursor.InCall? && h.cursor.written && h.pc < |h.prog|
                            && (h.prog[h.pc].Send? || h.prog[h.pc].SendAsync?)
                         then [h.prog[h.pc].cmd] else [])
    && StopOps(h.obs) == h.sys.stopLog
  }

  ghost predicate ResultGood(h: Shake) {
    && (h.result == Some(Lost) ==> h.waiter.Some? && W.Observed(h.sys.stop, h.waiter.value) == W.Orphaned)
    && (h.result.Some? && h.result.value.Done? && h.result.value.outcome.Some? ==>
          h.waiter.Some? && W.Observed(h.sys.stop, h.waiter.value) == W.Got(h.result.value.outcome.value))
    && (h.result == Some(Done(None)) ==> h.pc == |h.prog|)
  }

  /** Everything the invariant says beyond the system's own. */
  ghost predicate ProgGood(h: Shake) {
    && h.pc <= |h.prog|
    && CursorGood(h) && OwnGood(h) && GateGood(h) && HistoryGood(h) && ResultGood(h)
  }

  ghost predicate HGood(h: Shake) {
    SysGood(h.sys) && ProgGood(h)
  }

  // ----- how one system step looks from the program

  ghost predicate StopMoved(s: System, t: System, o: W.Op) {
    s.stop.WellFormed() && t.stop == W.Apply(s.stop, o) && t.stopLog == s.stopLog + [o]
  }

  predicate LatchTidy(l: Latch) {
    !l.fired && l.parks > 0 ==> l.parked == Some(l.parks - 1)
  }

  /** At most one call on the stop waiter, and calls, registrations and the latch only go forward. */
  ghost predicate Follows(s: System, t: System) {
    && s.stop.WellFormed()
    && |s.client.calls| <= |t.client.calls|
    && ((t.stop == s.stop && t.stopLog == s.stopLog) || exists o :: StopMoved(s, t, o))
    && (s.latch.fired ==> t.latch.fired) && s.latch.parks <= t.latch.parks
    && (LatchTidy(s.latch) ==> LatchTidy(t.latch))
  }

  lemma StepFollows(s: System, op: SysOp)
    requires SysFine(s) && SysEnabled(s, op)
    ensures Follows(s, SysStep(s, op))
  {
    var t := SysStep(s, op);
    if t.stopLog != s.stopLog {
      assert StopMoved(s, t, t.stopLog[|s.stopLog|]);
    }
  }

  /** A step by others leaves the phase of a call alone. */
  lemma ForeignKeepsPhase(s: System, op: SysOp, own: set<nat>, k: nat)
    requires SysFine(s) && SysEnabled(s, op) && Foreign(own, op) && k in own && k < |s.client.calls|
    ensures var d := SysStep(s, op).client;
            k < |d.calls| && d.calls[k].phase == s.client.calls[k].phase && d.calls[k].guarded == s.client.calls[k].guarded
  {
  }

  predicate SlotLive(w: W.Waiters) {
    w.slot.Some? ==> w.slot.value < |w.regs| && w.regs[w.slot.value] == W.Registration([], true)
  }

  lemma SettledOutcomeStays(w: W.Waiters, op: W.Op, i: nat)
    requires w.WellFormed() && SlotLive(w) && i < |w.regs| && W.Observed(w, i) != W.Waiting
    ensures W.Observed(W.Apply(w, op), i) == W.Observed(w, i)
  {
  }

  ghost predicate Observes(h: Shake, t: Shake) {
    && Follows(h.sys, t.sys)
    && t == h.(sys := t.sys, obs := t.obs)
    && t.obs == if |t.sys.stopLog| > |h.sys.stopLog| then h.obs + [ObsOf(t.sys.stopLog[|h.sys.stopLog|])] else h.obs
  }

  lemma ViaObserves(h: Shake, op: SysOp)
    requires SysFine(h.sys) && SysEnabled(h.sys, op)
    ensures Observes(h, Via(h, op))
  {
    StepFollows(h.sys, op);
  }

  /** Whatever the system did, the parts of the invariant about the past survive. */
  lemma PastSurvives(h: Shake, t: Shake)
    requires ProgGood(h) && SlotLive(h.sys.stop) && Observes(h, t)
    ensures OwnGood(t) && GateGood(t) && HistoryGood(t) && ResultGood(t) && Frames(t.obs) == Frames(h.obs)
  {
    if t.sys.stopLog != h.sys.stopLog {
      var o :| StopMoved(h.sys, t.sys, o);
      MoveRecorded(h, t, o);
      if h.waiter.Some? && W.Observed(h.sys.stop, h.waiter.value) != W.Waiting {
        SettledOutcomeStays(h.sys.stop, o, h.waiter.value);
      }
    }
  }

  lemma {:induction false} MoveRecorded(h: Shake, t: Shake, o: W.Op)
    requires Observes(h, t) && StopMoved(h.sys, t.sys, o) && StopOps(h.obs) == h.sys.stopLog
    ensures t.obs == h.obs + [ObsOf(o)] && StopOps(t.obs) == t.sys.stopLog && Frames(t.obs) == Frames(h.obs)
  {
    ProjectionsExtend(h.obs, ObsOf(o));
    assert [ObsOf(o)][..0] == [];
  }

  lemma {:induction false} CommandsExtend(prog: seq<Instr>, pc: nat)
    requires pc < |prog|
    ensures Commands(prog[..pc + 1]) ==
            Commands(prog[..pc]) + (if prog[pc].Send? || prog[pc].SendAsync? then [prog[pc].cmd] else [])
  {
    assert prog[..pc + 1][..pc] == prog[..pc];
  }

  // ----- each kind of step keeps the program's part

  ghost predicate Ready(h: Shake) {
    ProgGood(h) && SysFine(h.sys) && SlotLive(h.sys.stop)
  }

  lemma EnvKeepsProg(h: Shake, op: SysOp)
    requires Ready(h) && SysEnabled(h.sys, op) && Foreign(h.own, op)
    ensures ProgGood(Via(h, op))
  {
    ViaObserves(h, op);
    PastSurvives(h, Via(h, op));
    if h.cursor.InCall? {
      ForeignKeepsPhase(h.sys, op, h.own, h.cursor.k);
    }
  }

  lemma CancelKeepsProg(h: Shake)
    requires Ready(h) && HStep(h, Cancel).Some?
    ensures ProgGood(HStep(h, Cancel).value)
  {
    if h.cursor.InCall? {
      var op := Caller(Drop(h.cursor.k));
      ViaObserves(h, op);
      PastSurvives(h, Via(h, op));
    }
  }

  lemma StartCallKeepsProg(h: Shake)
    requires Ready(h) && h.result.None? && h.pc < |h.prog| && h.cursor.Between?
    requires h.prog[h.pc].Send? || h.prog[h.pc].SendAsync?
    ensures ProgGood(StartCall(h, h.prog[h.pc].Send?))
  {
    var op := Caller(NextSeq(h.prog[h.pc].Send?));
    ViaObserves(h, op);
    PastSurvives(h, Via(h, op));
  }

  lemma OwnPhases(s: System, k: nat)
    requires SysFine(s) && k < |s.client.calls|
    ensures Enabled(s.client, Register(k)) ==>
              var d := SysStep(s, Caller(Register(k))).client;
              k < |d.calls| && d.calls[k].phase == Registered && d.calls[k].guarded == s.client.calls[k].guarded
    ensures Enabled(s.client, WriteOk(k)) ==>
              var d := SysStep(s, Caller(WriteOk(k))).client;
              k < |d.calls| && d.calls[k].phase == Written && d.calls[k].guarded == s.client.calls[k].guarded
  {
  }

  lemma RegisterKeepsProg(h: Shake)
    requires Ready(h) && h.result.None? && h.cursor.InCall? && !h.cursor.written
    requires Enabled(h.sys.client, Register(h.cursor.k))
    ensures ProgGood(Via(h, Caller(Register(h.cursor.k))))
  {
    var op := Caller(Register(h.cursor.k));
    ViaObserves(h, op);
    PastSurvives(h, Via(h, op));
    OwnPhases(h.sys, h.cursor.k);
  }

  lemma {:induction false} FrameRecorded(obs: seq<Obs>, cmd: Command)
    ensures Frames(obs + [Wrote(cmd)]) == Frames(obs) + [cmd]
    ensures StopOps(obs + [Wrote(cmd)]) == StopOps(obs)
    ensures Dispatches(obs + [Wrote(cmd)]) == Dispatches(obs)
  {
    assert (obs + [Wrote(cmd)])[..|obs|] == obs;
  }

  lemma WriteKeepsProg(h: Shake)
    requires Ready(h) && h.result.None? && h.cursor.InCall? && !h.cursor.written
    requires Enabled(h.sys.client, WriteOk(h.cursor.k))
    ensures ProgGood(CallStep(h, h.cursor.k, h.prog[h.pc].cmd, true).value)
  {
    var k, cmd := h.cursor.k, h.prog[h.pc].cmd;
    var t := Via(h, Caller(WriteOk(k)));
    ViaObserves(h, Caller(WriteOk(k)));
    PastSurvives(h, t);
    OwnPhases(h.sys, k);
    FrameRecorded(t.obs, cmd);
  }

  lemma WriteFailKeepsProg(h: Shake)
    requires Ready(h) && h.result.None? && h.cursor.InCall? && !h.cursor.written
    requires Enabled(h.sys.client, WriteOk(h.cursor.k))
    ensures ProgGood(CallStep(h, h.cursor.k, h.prog[h.pc].cmd, false).value)
  {
    var op := Caller(WriteFail(h.cursor.k));
    ViaObserves(h, op);
    PastSurvives(h, Via(h, op));
  }

  lemma AwaitKeepsProg(h: Shake, k: nat, check: Check)
    requires Ready(h) && h.result.None? && h.pc < |h.prog|
    requires (h.prog[h.pc].Send? && h.cursor == InCall(k, true)) || (h.prog[h.pc].AwaitAsync? && h.cursor.Between?)
    requires AwaitStep(h, k, check).Some?
    ensures ProgGood(AwaitStep(h, k, check).value)
  {
    var op := Caller(Await(k));
    var t := Via(h, op);
    ViaObserves(h, op);
    PastSurvives(h, t);
    if Passes(Received(h.sys.client.calls[k]), check) {
      AdvanceKeepsProg(t);
    } else {
      assert t.cursor == h.cursor;
    }
  }

  /** Moving on once the instruction's frame, if it has one, is out. */
  lemma AdvanceKeepsProg(t: Shake)
    requires t.pc < |t.prog| && t.result.None? && OwnGood(t) && GateGood(t) && HistoryGood(t)
    requires t.prog[t.pc].WaitInit? ==> t.sys.latch.fired || t.sys.latch.parks > 1
    requires t.prog[t.pc].RegisterWaiter? ==> t.waiter.Some?
    requires !t.prog[t.pc].AwaitStop?
    requires t.prog[t.pc].Send? || t.prog[t.pc].SendAsync? ==> t.cursor.InCall? && t.cursor.written
    ensures ProgGood(Next(t))
  {
    CommandsExtend(t.prog, t.pc);
  }

  lemma WaitInitKeepsProg(h: Shake, writes: bool)
    requires Ready(h) && h.pc < |h.prog| && h.prog[h.pc].WaitInit? && OwnStep(h, writes).Some?
    ensures ProgGood(OwnStep(h, writes).value)
  {
    if h.cursor.Between? && !h.sys.latch.fired {
      ViaObserves(h, Park);
      PastSurvives(h, Via(h, Park));
    } else {
      AdvanceKeepsProg(h);
    }
  }

  lemma RegisterWaiterKeepsProg(h: Shake)
    requires Ready(h) && h.result.None? && h.pc < |h.prog| && h.prog[h.pc].RegisterWaiter?
    ensures ProgGood(OwnStep(h, true).value)
  {
    var t := Via(h, RegisterStop);
    ViaObserves(h, RegisterStop);
    PastSurvives(h, t);
    AdvanceKeepsProg(t.(waiter := Some(|h.sys.stop.regs|)));
  }

  lemma OwnKeepsProg(h: Shake, writes: bool)
    requires Ready(h) && OwnStep(h, writes).Some?
    ensures ProgGood(OwnStep(h, writes).value)
  {
    if h.pc < |h.prog| {
      match h.prog[h.pc]
      case Send(cmd, check) => SendKeepsProg(h, writes);
      case SendAsync(cmd) => SendKeepsProg(h, writes);
      case WaitInit => WaitInitKeepsProg(h, writes);
      case RegisterWaiter => RegisterWaiterKeepsProg(h);
      case AwaitAsync => AwaitKeepsProg(h, h.async.value, Success);
      case AwaitStop =>
    }
  }

  lemma SendKeepsProg(h: Shake, writes: bool)
    requires Ready(h) && OwnStep(h, writes).Some? && h.pc < |h.prog| && (h.prog[h.pc].Send? || h.prog[h.pc].SendAsync?)
    ensures ProgGood(OwnStep(h, writes).value)
  {
    if h.cursor.Between? {
      StartCallKeepsProg(h);
    } else if !h.cursor.written {
      if Enabled(h.sys.client, Register(h.cursor.k)) { RegisterKeepsProg(h); }
      else if writes { WriteKeepsProg(h); }
      else { WriteFailKeepsProg(h); }
    } else if h.prog[h.pc].Send? {
      AwaitKeepsProg(h, h.cursor.k, h.prog[h.pc].check);
    } else {
      AdvanceKeepsProg(h.(async := Some(h.cursor.k)));
    }
  }

  /** What a step does to the system is one system step, or nothing. */
  lemma HStepSystem(h: Shake, op: HOp) returns (o: Option<SysOp>)
    requires SysFine(h.sys) && HStep(h, op).Some?
    ensures o.None? ==> HStep(h, op).value.sys == h.sys
    ensures o.Some? ==> SysEnabled(h.sys, o.value) && HStep(h, op).value.sys == SysStep(h.sys, o.value)
  {
    var t := HStep(h, op).value;
    o := None;
    match op
    case Env(e) => o := Some(e);
    case Cancel => if h.cursor.InCall? { o := Some(Caller(Drop(h.cursor.k))); }
    case Own(writes) =>
      if h.pc < |h.prog| {
        match h.prog[h.pc]
        case Send(_, _) => o := CallSystem(h, writes);
        case SendAsync(_) => o := CallSystem(h, writes);
        case WaitInit => if h.cursor.Between? && !h.sys.latch.fired { o := Some(Park); }
        case RegisterWaiter => o := Some(RegisterStop);
        case AwaitAsync => o := Some(Caller(Await(h.async.value)));
        case AwaitStop =>
      }
  }

  lemma CallSystem(h: Shake, writes: bool) returns (o: Option<SysOp>)
    requires SysFine(h.sys) && OwnStep(h, writes).Some? && h.pc < |h.prog| && (h.prog[h.pc].Send? || h.prog[h.pc].SendAsync?)
    ensures o.None? ==> OwnStep(h, writes).value.sys == h.sys
    ensures o.Some? ==> SysEnabled(h.sys, o.value) && OwnStep(h, writes).value.sys == SysStep(h.sys, o.value)
  {
    if h.cursor.Between? {
      o := Some(Caller(NextSeq(h.prog[h.pc].Send?)));
    } else if h.cursor.written {
      o := if h.prog[h.pc].Send? then Some(Caller(Await(h.cursor.k))) else None;
    } else if Enabled(h.sys.client, Register(h.cursor.k)) {
      o := Some(Caller(Register(h.cursor.k)));
    } else {
      o := Some(Caller(if writes then WriteOk(h.cursor.k) else WriteFail(h.cursor.k)));
    }
  }

  lemma HStepKeepsGood(h: Shake, op: HOp)
    requires HGood(h) && HStep(h, op).Some? && |HStep(h, op).value.sys.client.calls| <= TWO64
    ensures HGood(HStep(h, op).value)
  {
    var o := HStepSystem(h, op);
    if o.Some? {
      SysStepKeepsGood(h.sys, o.value);
    }
    match op
    case Own(writes) => OwnKeepsProg(h, writes);
    case Env(e) => EnvKeepsProg(h, e);
    case Cancel => CancelKeepsProg(h);
  }

  lemma HStepSameProgram(h: Shake, op: HOp)
    requires SysFine(h.sys) && HStep(h, op).Some?
    ensures HStep(h, op).value.prog == h.prog
  {
  }

  lemma HStepGrows(h: Shake, op: HOp)
    requires SysFine(h.sys) && HStep(h, op).Some?
    ensures |h.sys.client.calls| <= |HStep(h, op).value.sys.client.calls|
  {
    var o := HStepSystem(h, op);
    if o.Some? { StepFollows(h.sys, o.value); }
  }

  lemma BeginGood(prog: seq<Instr>)
    ensures HGood(Begin(prog))
  {
    StartedGood();
  }

  lemma {:induction false} HRunGood(prog: seq<Instr>, ops: seq<HOp>)
    requires HRun(prog, ops).Some? && |HRun(prog, ops).value.sys.client.calls| <= TWO64
    ensures HGood(HRun(prog, ops).value) && HRun(prog, ops).value.prog == prog
  {
    if ops == [] {
      BeginGood(prog);
    } else {
      var h := HRun(prog, ops[..|ops| - 1]).value;
      HStepGrows(h, ops[|ops| - 1]);
      HStepSameProgram(h, ops[|ops| - 1]);
      HRunGood(prog, ops[..|ops| - 1]);
      HStepKeepsGood(h, ops[|ops| - 1]);
    }
  }

  // ----- request ordering, over every run, failed and cancelled ones included

  lemma {:induction false} CommandsMonotone(prog: seq<Instr>, i: nat, j: nat)
    requires i <= j <= |prog|
    ensures Commands(prog[..i]) <= Commands(prog[..j])
    decreases j - i
  {
    if i < j {
      CommandsExtend(prog, j - 1);
      CommandsMonotone(prog, i, j - 1);
    }
  }

  lemma {:induction false} CommandsConcat(p: seq<Instr>, q: seq<Instr>)
    ensures Commands(p + q) == Commands(p) + Commands(q)
  {
    if q == [] {
      assert p + q == p;
    } else {
      assert (p + q)[..|p + q| - 1] == p + q[..|q| - 1];
      CommandsConcat(p, q[..|q| - 1]);
    }
  }

  lemma {:induction false} FramesArePrefix(h: Shake)
    requires ProgGood(h)
    ensures Frames(h.obs) <= Commands(h.prog)
  {
    assert h.prog[..|h.prog|] == h.prog;
    CommandsMonotone(h.prog, h.pc, |h.prog|);
    if h.pc < |h.prog| {
      CommandsExtend(h.prog, h.pc);
      CommandsMonotone(h.prog, h.pc + 1, |h.prog|);
    }
  }

  lemma {:induction false} BeforeTheGate(h: Shake, w: nat)
    requires ProgGood(h) && h.pc <= w < |h.prog| && h.prog[w].WaitInit?
    ensures |Frames(h.obs)| <= |Commands(h.prog[..w])|
  {
    CommandsMonotone(h.prog, h.pc, w);
    if h.pc < w {
      CommandsExtend(h.prog, h.pc);
      CommandsMonotone(h.prog, h.pc + 1, w);
    }
  }

  /** The frames written are a prefix of the program's requests, and those behind the
      `initialized` wait come after the event, unless a second waiter displaced the first. */
  lemma {:induction false} WritesInOrder(prog: seq<Instr>, ops: seq<HOp>, w: nat)
    requires HRun(prog, ops).Some? && |HRun(prog, ops).value.sys.client.calls| <= TWO64
    requires w < |prog| && prog[w].WaitInit?
    ensures var h := HRun(prog, ops).value;
            && Frames(h.obs) <= Commands(prog)
            && (|Frames(h.obs)| > |Commands(prog[..w])| && h.sys.latch.parks <= 1 ==>
                  EventMessage(Initialized) in h.sys.read)
  {
    HRunGood(prog, ops);
    var h := HRun(prog, ops).value;
    FramesArePrefix(h);
    if h.pc <= w { BeforeTheGate(h, w); }
  }

  function FileCommands(files: seq<string>): seq<Command> {
    seq(|files|, i requires 0 <= i < |files| => SetBreakpoints(files[i]))
  }

  /** The launch requests in the order the protocol asks for. */
  function LaunchPlan(spec: LaunchSpec): seq<Command> {
    [Initialize, Launch] + FileCommands(spec.files)
    + (if spec.functions != [] then [SetFunctionBreakpoints] else [])
    + [SetExceptionBreakpoints, ConfigurationDone]
  }

  lemma {:induction false} FlushCommands(files: seq<string>)
    ensures Commands(FlushFiles(files)) == FileCommands(files)
  {
    if files != [] {
      var head := [Send(SetBreakpoints(files[0]), SuccessOf("setBreakpoints"))];
      CommandsConcat(head, FlushFiles(files[1..]));
      FlushCommands(files[1..]);
      assert head[..0] == [];
    }
  }

  lemma {:induction false} SingleCommand(i: Instr)
    ensures Commands([i]) == if i.Send? || i.SendAsync? then [i.cmd] else []
  {
    assert [i][..0] == [];
  }

  lemma {:induction false} PairCommands(i: Instr, j: Instr)
    ensures Commands([i, j]) == Commands([i]) + Commands([j])
  {
    CommandsConcat([i], [j]);
    assert [i] + [j] == [i, j];
  }

  lemma {:induction false} GateCommands()
    ensures Commands([Send(Initialize, Success), SendAsync(Launch), WaitInit]) == [Initialize, Launch]
  {
    var gate := [Send(Initialize, Success), SendAsync(Launch), WaitInit];
    assert gate[..2] == [Send(Initialize, Success), SendAsync(Launch)];
    PairCommands(Send(Initialize, Success), SendAsync(Launch));
    SingleCommand(Send(Initialize, Success));
    SingleCommand(SendAsync(Launch));
  }

  lemma {:induction false} TailCommands(stopOnEntry: bool)
    ensures Commands(LaunchTail(stopOnEntry)) == [SetExceptionBreakpoints, ConfigurationDone]
  {
    var exceptions, config := Send(SetExceptionBreakpoints, Unchecked), Send(ConfigurationDone, Unchecked);
    SingleCommand(exceptions);
    SingleCommand(RegisterWaiter);
    SingleCommand(config);
    SingleCommand(AwaitAsync);
    SingleCommand(AwaitStop);
    if stopOnEntry {
      PairCommands(exceptions, RegisterWaiter);
      CommandsConcat([exceptions, RegisterWaiter], [config]);
      CommandsConcat([exceptions, RegisterWaiter] + [config], [AwaitAsync]);
      CommandsConcat([exceptions, RegisterWaiter] + [config] + [AwaitAsync], [AwaitStop]);
      assert LaunchTail(true) == [exceptions, RegisterWaiter] + [config] + [AwaitAsync] + [AwaitStop];
    } else {
      PairCommands(exceptions, config);
      CommandsConcat([exceptions, config], [AwaitAsync]);
      assert LaunchTail(false) == [exceptions, config] + [AwaitAsync];
    }
  }

  lemma {:induction false} LaunchCommands(spec: LaunchSpec)
    ensures Commands(LaunchProgram(spec)) == LaunchPlan(spec)
  {
    var gate := [Send(Initialize, Success), SendAsync(Launch), WaitInit];
    var files := FlushFiles(spec.files);
    var functions := if spec.functions != [] then [Send(SetFunctionBreakpoints, Success)] else [];
    CommandsConcat(gate + files + functions, LaunchTail(spec.stopOnEntry));
    CommandsConcat(gate + files, functions);
    CommandsConcat(gate, files);
    GateCommands();
    FlushCommands(spec.files);
    SingleCommand(Send(SetFunctionBreakpoints, Success));
    TailCommands(spec.stopOnEntry);
  }

  lemma {:induction false} AttachCommands()
    ensures Commands(ATTACH_PROGRAM) == [Initialize, Attach, SetExceptionBreakpoints, ConfigurationDone]
    ensures Commands(RESUME_PROGRAM) == [Resume]
  {
    var a, b := Send(Initialize, Success), SendAsync(Attach);
    var c, d := Send(SetExceptionBreakpoints, Unchecked), Send(ConfigurationDone, Unchecked);
    PairCommands(a, b);
    PairCommands(c, d);
    PairCommands(AwaitAsync, RegisterWaiter);
    SingleCommand(a);
    SingleCommand(b);
    SingleCommand(c);
    SingleCommand(d);
    SingleCommand(WaitInit);
    SingleCommand(AwaitAsync);
    SingleCommand(RegisterWaiter);
    SingleCommand(AwaitStop);
    CommandsConcat([a, b], [WaitInit]);
    CommandsConcat([a, b] + [WaitInit], [c, d]);
    CommandsConcat([a, b] + [WaitInit] + [c, d], [AwaitAsync, RegisterWaiter]);
    CommandsConcat([a, b] + [WaitInit] + [c, d] + [AwaitAsync, RegisterWaiter], [AwaitStop]);
    assert ATTACH_PROGRAM == [a, b] + [WaitInit] + [c, d] + [AwaitAsync, RegisterWaiter] + [AwaitStop];
    ResumeCommands();
  }

  lemma {:induction false} ResumeCommands()
    ensures Commands(RESUME_PROGRAM) == [Resume]
  {
    var r := Send(Resume, Unchecked);
    PairCommands(RegisterWaiter, r);
    SingleCommand(RegisterWaiter);
    SingleCommand(r);
    SingleCommand(AwaitStop);
    CommandsConcat([RegisterWaiter, r], [AwaitStop]);
    assert RESUME_PROGRAM == [RegisterWaiter, r] + [AwaitStop];
  }

  /**
   * In every run of a launch the frames written are a prefix of the plan, and as long as
   * nobody else waits for `initialized`, nothing after `launch` is written before that event
   * was dispatched.
   */
  lemma {:induction false} LaunchOrdering(spec: LaunchSpec, ops: seq<HOp>)
    requires HRun(LaunchProgram(spec), ops).Some?
    requires |HRun(LaunchProgram(spec), ops).value.sys.client.calls| <= TWO64
    ensures var h := HRun(LaunchProgram(spec), ops).value;
            && Frames(h.obs) <= LaunchPlan(spec)
            && (|Frames(h.obs)| > 2 && h.sys.latch.parks <= 1 ==> EventMessage(Initialized) in h.sys.read)
  {
    var prog := LaunchProgram(spec);
    LaunchCommands(spec);
    WritesInOrder(prog, ops, 2);
    var start := [Send(Initialize, Success), SendAsync(Launch)];
    assert prog[..2] == start;
    PairCommands(start[0], start[1]);
    SingleCommand(start[0]);
    SingleCommand(start[1]);
  }

  // ----- when a wait for `initialized` is over

  predicate LatchGood(l: Latch) {
    l.parked == if l.fired || l.parks == 0 then None else Some(l.parks - 1)
  }

  lemma StepKeepsLatch(s: System, op: SysOp)
    requires SysFine(s) && SysEnabled(s, op) && LatchGood(s.latch)
    ensures LatchGood(SysStep(s, op).latch)
  {
  }

  lemma {:induction false} RunKeepsLatch(prog: seq<Instr>, ops: seq<HOp>)
    requires HRun(prog, ops).Some?
    ensures LatchGood(HRun(prog, ops).value.sys.latch)
  {
    if ops != [] {
      var h := HRun(prog, ops[..|ops| - 1]).value;
      RunKeepsLatch(prog, ops[..|ops| - 1]);
      var o := HStepSystem(h, ops[|ops| - 1]);
      if o.Some? { StepKeepsLatch(h.sys, o.value); }
    }
  }

  /**
   * In every run a parked wait is over if and only if the event was dispatched or a later wait
   * took its place: the replaced sender closes the channel, which counts as resolved.
   */
  lemma {:induction false} WaitOverIff(prog: seq<Instr>, ops: seq<HOp>, p: nat)
    requires HRun(prog, ops).Some? && |HRun(prog, ops).value.sys.client.calls| <= TWO64
    requires p < HRun(prog, ops).value.sys.latch.parks
    ensures var s := HRun(prog, ops).value.sys;
            s.latch.Resolved(p) <==> EventMessage(Initialized) in s.read || p + 1 < s.latch.parks
  {
    HRunGood(prog, ops);
    RunKeepsLatch(prog, ops);
  }

  /** So a second wait lets the first handshake go on without the event. */
  lemma {:induction false} DisplacedWaitGoesOn(h: Shake, p: nat)
    requires HGood(h) && h.result.None? && h.cursor == Parked(p) && !h.sys.latch.fired
    ensures HStep(h, Env(Park)).Some?
    ensures OwnStep(HStep(h, Env(Park)).value, true) == Some(Next(HStep(h, Env(Park)).value))
    ensures EventMessage(Initialized) !in OwnStep(HStep(h, Env(Park)).value, true).value.sys.read
  {
    assert h.prog[h.pc].WaitInit?;
  }
}
