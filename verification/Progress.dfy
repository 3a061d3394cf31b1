/**
 * Launch and attach against a cooperative adapter: it answers every request once, with success,
 * sends `initialized` once after the start request and stopped, exited or terminated events only
 * after `configurationDone`. It may send anything else at any time: output, informational events
 * and messages nobody knows. When it answers the start request is left to a policy.
 */
module LaunchProgress {
  import opened Types
  import opened Clients
  import opened ReadLoops
  import opened Handshakes
  import opened EntryStops
  import W = StopWaiters

  function Name(cmd: Command): string {
    match cmd
    case Initialize => "initialize"
    case Launch => "launch"
    case Attach => "attach"
    case SetBreakpoints(_) => "setBreakpoints"
    case SetFunctionBreakpoints => "setFunctionBreakpoints"
    case SetExceptionBreakpoints => "setExceptionBreakpoints"
    case ConfigurationDone => "configurationDone"
    case Resume => "continue"
  }

  /** When the adapter answers `launch`: before `initialized`, after it, only once configured, or any time. */
  datatype Policy = AnswerThenInit | InitThenAnswer | Deferred | AnyTime

  datatype GoodOp = Run | Answer(k: nat) | SendInit | SendStop(entry: Event) | HandOver | Chatter(message: DapMessage)

  /** The events that resolve a stop waiter. */
  predicate StopLike(event: Event) {
    event.StoppedEvent? || event.ExitedEvent? || event.TerminatedEvent?
  }

  function OutcomeOf(event: Event): StopOutcome
    requires StopLike(event)
  {
    match event
    case StoppedEvent(body) => Stopped(W.StopInfoFromEvent(body))
    case ExitedEvent(code) => Exited(Some(code))
    case TerminatedEvent => Terminated
  }

  /** Messages that are forwarded or logged and nothing more. */
  predicate IsChatter(message: DapMessage) {
    message.Other? || (message.EventMessage? && (message.event.OutputEvent? || message.event.Informational?))
  }

  function NameAt(plan: seq<Command>, k: nat): string {
    if k < |plan| then Name(plan[k]) else ""
  }

  function AnswerTo(plan: seq<Command>, k: nat): Response {
    Response(SeqOf(k), true, NameAt(plan, k))
  }

  function AsStep(plan: seq<Command>, op: GoodOp): HOp {
    match op
    case Run => Own(true)
    case Answer(k) => Env(Read(ResponseMessage(AnswerTo(plan, k))))
    case SendInit => Env(Read(EventMessage(Initialized)))
    case SendStop(entry) => Env(Read(EventMessage(entry)))
    case HandOver => Env(Hand)
    case Chatter(message) => Env(Read(message))
  }

  /** The launch or attach request is out. */
  predicate StartSent(h: Shake) {
    |h.prog| > 1 && h.prog[1].SendAsync? && h.prog[1].cmd in Frames(h.obs)
  }

  /** Call 1 is the start request: calls are numbered in plan order when nobody else sends. */
  ghost predicate Allowed(policy: Policy, h: Shake, op: GoodOp) {
    match op
    case Run => true
    case HandOver => true
    case Answer(k) =>
      && k < |h.sys.client.calls| && h.sys.client.calls[k].phase.Written? && InPending(h.sys.client, k)
      && (k == 1 && policy.InitThenAnswer? ==> h.sys.latch.fired)
      && (k == 1 && policy.Deferred? ==> ConfigurationDone in Frames(h.obs))
    case SendInit =>
      && !h.sys.latch.fired && StartSent(h)
      && (policy.AnswerThenInit? ==> !InPending(h.sys.client, 1))
    case SendStop(entry) => StopLike(entry) && ConfigurationDone in Frames(h.obs)
    case Chatter(message) => IsChatter(message)
  }

  /** Everything but chatter and stop-like events after the first. */
  predicate Productive(h: Shake, op: GoodOp) {
    !op.Chatter? && (op.SendStop? ==> Dispatches(h.obs) == [])
  }

  ghost function GoodStep(policy: Policy, h: Shake, op: GoodOp): (r: Option<Shake>)
    requires SysFine(h.sys)
    ensures r.Some? ==> SysFine(r.value.sys)
  {
    if Allowed(policy, h, op) then HStep(h, AsStep(Commands(h.prog), op)) else None
  }

  ghost function GoodRun(policy: Policy, prog: seq<Instr>, ops: seq<GoodOp>): (r: Option<Shake>)
    ensures r.Some? ==> SysFine(r.value.sys)
  {
    if ops == [] then Some(Begin(prog))
    else
      var h := GoodRun(policy, prog, ops[..|ops| - 1]);
      if h.None? then None else GoodStep(policy, h.value, ops[|ops| - 1])
  }

  /** The productive steps of a run. */
  ghost function Effort(policy: Policy, prog: seq<Instr>, ops: seq<GoodOp>): nat {
    if ops == [] then 0
    else
      var h := GoodRun(policy, prog, ops[..|ops| - 1]);
      Effort(policy, prog, ops[..|ops| - 1]) + if h.Some? && Productive(h.value, ops[|ops| - 1]) then 1 else 0
  }

  // ----- what the proof needs to know about the programs

  ghost predicate Shaped(prog: seq<Instr>) {
    && |prog| >= 3 && prog[0].Send? && prog[1].SendAsync? && prog[2].WaitInit?
    && (forall j | 0 <= j < |prog| :: (prog[j].SendAsync? ==> j == 1) && (prog[j].WaitInit? ==> j == 2))
    && (forall j | 0 <= j < |prog| && prog[j].Send? && prog[j].check.SuccessOf? :: prog[j].check.command == Name(prog[j].cmd))
    && (forall j | 0 <= j < |prog| && (prog[j].AwaitAsync? || prog[j].AwaitStop?) ::
          exists i :: 0 <= i < j && prog[i].Send? && prog[i].cmd.ConfigurationDone?)
    && (forall j | 0 <= j < |prog| && prog[j].AwaitStop? :: exists i :: 0 <= i < j && prog[i].RegisterWaiter?)
    && (forall i, j | 0 <= i < j < |prog| :: !(prog[i].RegisterWaiter? && prog[j].RegisterWaiter?)
                                             && !(prog[i].AwaitAsync? && prog[j].AwaitAsync?))
  }

  predicate Flush(i: Instr) {
    && i.Send?
    && ((i.cmd.SetBreakpoints? && i.check == SuccessOf("setBreakpoints")) || i == Send(SetFunctionBreakpoints, Success))
  }

  lemma LaunchParts(spec: LaunchSpec) returns (n: nat)
    ensures var prog, tail := LaunchProgram(spec), LaunchTail(spec.stopOnEntry);
            && 3 <= n && |prog| == n + |tail|
            && prog[0] == Send(Initialize, Success) && prog[1] == SendAsync(Launch) && prog[2] == WaitInit
            && (forall j | 3 <= j < n :: Flush(prog[j]))
            && (forall j | n <= j < |prog| :: prog[j] == tail[j - n])
  {
    n := |LaunchProgram(spec)| - |LaunchTail(spec.stopOnEntry)|;
  }

  lemma LaunchShaped(spec: LaunchSpec)
    ensures Shaped(LaunchProgram(spec))
  {
    var n := LaunchParts(spec);
    PartsShaped(LaunchProgram(spec), n, spec.stopOnEntry);
  }

  lemma PartsShaped(prog: seq<Instr>, n: nat, stopOnEntry: bool)
    requires 3 <= n && |prog| == n + |LaunchTail(stopOnEntry)|
    requires prog[0] == Send(Initialize, Success) && prog[1] == SendAsync(Launch) && prog[2] == WaitInit
    requires forall j | 3 <= j < n :: Flush(prog[j])
    requires forall j | n <= j < |prog| :: prog[j] == LaunchTail(stopOnEntry)[j - n]
    ensures Shaped(prog)
  {
    assert prog[n] == Send(SetExceptionBreakpoints, Unchecked);
    if stopOnEntry {
      assert prog[n + 1] == RegisterWaiter && prog[n + 2] == Send(ConfigurationDone, Unchecked);
      assert prog[n + 3] == AwaitAsync && prog[n + 4] == AwaitStop;
    } else {
      assert prog[n + 1] == Send(ConfigurationDone, Unchecked) && prog[n + 2] == AwaitAsync;
    }
  }

  // ----- the invariant of the closed system

  function Completed(h: Shake): nat
    requires h.pc <= |h.prog|
  {
    |Commands(h.prog[..h.pc])|
  }

  predicate Awaited(h: Shake)
    requires h.pc <= |h.prog|
  {
    exists j :: 0 <= j < h.pc && h.prog[j].AwaitAsync?
  }

  /** Calls are numbered in plan order; all but the outstanding launch call have returned. */
  predicate CallsOk(h: Shake)
    requires h.pc <= |h.prog|
  {
    var n, calls := Completed(h), h.sys.client.calls;
    && |calls| == n + (if h.cursor.InCall? then 1 else 0)
    && (h.cursor.InCall? ==> h.cursor.k == n)
    && (forall k | 0 <= k < n ::
          if k == 1 && !Awaited(h) then calls[k].phase.Written? else calls[k].phase.Returned?)
    && h.async == (if h.pc >= 2 then Some(1) else None)
  }

  predicate RepliesOk(plan: seq<Command>, c: Client) {
    && (forall k | 0 <= k < |c.calls| :: c.calls[k].sent == [] || c.calls[k].sent == [Ok(AnswerTo(plan, k))])
    && (forall i | 0 <= i < |c.taken| :: c.taken[i].reply == Ok(AnswerTo(plan, c.taken[i].call)))
  }

  predicate LatchOk(h: Shake) {
    && h.sys.latch.parks <= 1
    && (h.sys.latch.fired ==> h.sys.latch.parked.None?)
    && (h.pc < 2 || (h.pc == 2 && h.cursor.Between?) ==> h.sys.latch.parks == 0)
  }

  ghost predicate StopOk(h: Shake)
    requires h.pc <= |h.prog|
  {
    && QuietBeforeConfigured(h.obs)
    && |h.sys.stop.regs| == (if h.waiter.Some? then 1 else 0)
    && (h.waiter.Some? ==> exists j :: 0 <= j < h.pc && h.prog[j].RegisterWaiter?)
    && (Careful(h.prog) ==> OpensLog(h))
  }

  predicate FlowOk(h: Shake) {
    && (h.sys.reader.Reading? || h.sys.reader.Handing?)
    && (h.result.Some? ==> h.result.value.Done?)
  }

  ghost predicate Parts(h: Shake) {
    && h.pc <= |h.prog| && Shaped(h.prog)
    && CallsOk(h) && RepliesOk(Commands(h.prog), h.sys.client) && LatchOk(h) && StopOk(h) && FlowOk(h)
  }

  ghost predicate ClosedGood(h: Shake) {
    HGood(h) && Parts(h)
  }

  lemma {:induction false} PlanAt(h: Shake)
    requires h.pc < |h.prog| && (h.prog[h.pc].Send? || h.prog[h.pc].SendAsync?)
    ensures Completed(h) < |Commands(h.prog)| && Commands(h.prog)[Completed(h)] == h.prog[h.pc].cmd
  {
    CommandsExtend(h.prog, h.pc);
    CommandsMonotone(h.prog, h.pc + 1, |h.prog|);
    assert h.prog[..|h.prog|] == h.prog;
  }

  lemma {:induction false} CompletedBound(h: Shake)
    requires ProgGood(h) && CallsOk(h)
    ensures |h.sys.client.calls| <= |Commands(h.prog)|
  {
    assert h.prog[..|h.prog|] == h.prog;
    CommandsMonotone(h.prog, h.pc, |h.prog|);
    if h.cursor.InCall? { PlanAt(h); }
  }

  /** Past the two opening requests every plain request has a number of at least 2. */
  lemma {:induction false} NumberOf(prog: seq<Instr>, pc: nat)
    requires Shaped(prog) && pc <= |prog|
    ensures pc == 0 ==> |Commands(prog[..pc])| == 0
    ensures pc == 1 ==> |Commands(prog[..pc])| == 1
    ensures pc >= 2 ==> |Commands(prog[..pc])| >= 2
  {
    CommandsExtend(prog, 0);
    CommandsExtend(prog, 1);
    assert prog[..0] == [];
    if pc >= 2 { CommandsMonotone(prog, 2, pc); }
  }

  lemma {:induction false} SentBefore(prog: seq<Instr>, i: nat, pc: nat)
    requires i < pc <= |prog| && (prog[i].Send? || prog[i].SendAsync?)
    ensures prog[i].cmd in Commands(prog[..pc])
  {
    CommandsExtend(prog, i);
    CommandsMonotone(prog, i + 1, pc);
    assert Commands(prog[..i + 1])[|Commands(prog[..i])|] == prog[i].cmd;
  }

  // ----- no state before the end is stuck

  /** A call whose frame is out and whose reply has not come can be answered or handed over. */
  lemma WaitingCallIsPending(c: Client, k: nat)
    requires Good(c) && c.taken == [] && k < |c.calls| && c.calls[k].phase.Written?
    ensures c.calls[k].sent == [] ==> InPending(c, k) && c.calls[k].senderLive
  {
    assert CallGood(c, k);
  }

  /** The reader is between messages and the program still runs. */
  ghost predicate Quiescent(h: Shake) {
    && ProgGood(h) && Parts(h) && SysFine(h.sys) && h.result.None? && h.pc < |h.prog|
    && h.sys.reader.Reading? && h.sys.client.taken == []
  }

  /** What the adapter sends while the reader is reading is always taken in. */
  lemma AdapterCanAct(policy: Policy, h: Shake, op: GoodOp)
    requires SysFine(h.sys) && h.sys.reader.Reading? && Allowed(policy, h, op) && !op.Run? && !op.HandOver?
    ensures GoodStep(policy, h, op).Some?
  {
  }

  lemma SendCanRun(h: Shake)
    requires ProgGood(h) && SysFine(h.sys) && h.result.None? && h.pc < |h.prog| && h.prog[h.pc].Send?
    requires h.cursor.InCall? && h.cursor.written ==> h.sys.client.calls[h.cursor.k].sent != []
    ensures OwnStep(h, true).Some?
  {
  }

  lemma AwaitedCanBeAnswered(policy: Policy, h: Shake)
    requires SysFine(h.sys) && h.sys.reader.Reading? && h.sys.client.taken == [] && Good(h.sys.client)
    requires h.pc < |h.prog| && Shaped(h.prog) && CallsOk(h) && CursorGood(h) && h.result.None?
    requires h.prog[h.pc].Send? && h.cursor.InCall? && h.cursor.written && h.sys.client.calls[h.cursor.k].sent == []
    ensures GoodStep(policy, h, Answer(h.cursor.k)).Some?
  {
    NumberOf(h.prog, h.pc);
    WaitingCallIsPending(h.sys.client, h.cursor.k);
    AdapterCanAct(policy, h, Answer(h.cursor.k));
  }

  lemma AwaitingIsNotStuck(policy: Policy, h: Shake) returns (op: GoodOp)
    requires Quiescent(h) && Good(h.sys.client) && h.prog[h.pc].Send?
    ensures GoodStep(policy, h, op).Some? && !op.SendStop? && !op.Chatter? && !op.SendInit?
  {
    if h.cursor.InCall? && h.cursor.written && h.sys.client.calls[h.cursor.k].sent == [] {
      op := Answer(h.cursor.k);
      AwaitedCanBeAnswered(policy, h);
    } else {
      op := Run;
      SendCanRun(h);
    }
  }

  lemma GateFacts(h: Shake)
    requires ProgGood(h) && CallsOk(h) && LatchOk(h) && Shaped(h.prog)
    requires h.pc == 2 && h.cursor.Parked? && !h.sys.latch.Resolved(h.cursor.p)
    ensures !h.sys.latch.fired && StartSent(h)
    ensures 1 < |h.sys.client.calls| && h.sys.client.calls[1].phase.Written?
  {
    NumberOf(h.prog, 2);
    SentBefore(h.prog, 1, 2);
  }

  lemma GateIsNotStuck(policy: Policy, h: Shake) returns (op: GoodOp)
    requires ProgGood(h) && CallsOk(h) && LatchOk(h) && Shaped(h.prog) && SysFine(h.sys)
    requires h.result.None? && h.sys.reader.Reading? && h.pc < |h.prog| && h.prog[h.pc].WaitInit?
    ensures GoodStep(policy, h, op).Some? && !op.SendStop? && !op.Chatter? && (op.SendInit? ==> h.cursor.Parked?)
  {
    op := Run;
    if h.cursor.Parked? && !h.sys.latch.Resolved(h.cursor.p) {
      GateFacts(h);
      op := if policy.AnswerThenInit? && InPending(h.sys.client, 1) then Answer(1) else SendInit;
      AdapterCanAct(policy, h, op);
    }
  }

  lemma LaunchReplyIsNotStuck(policy: Policy, h: Shake) returns (op: GoodOp)
    requires Quiescent(h) && Good(h.sys.client) && h.prog[h.pc].AwaitAsync?
    ensures GoodStep(policy, h, op).Some? && !op.SendStop? && !op.Chatter? && !op.SendInit?
  {
    NumberOf(h.prog, h.pc);
    assert h.pc > 2;
    assert !Awaited(h);
    assert h.sys.client.calls[1].phase.Written?;
    op := Run;
    if h.sys.client.calls[1].sent == [] {
      WaitingCallIsPending(h.sys.client, 1);
      var i :| 0 <= i < h.pc && h.prog[i].Send? && h.prog[i].cmd.ConfigurationDone?;
      SentBefore(h.prog, i, h.pc);
      op := Answer(1);
      AdapterCanAct(policy, h, op);
    }
  }

  lemma {:induction false} ConfiguredInFrames(h: Shake)
    requires ProgGood(h) && Shaped(h.prog) && h.pc < |h.prog| && h.prog[h.pc].AwaitStop?
    ensures ConfigurationDone in Frames(h.obs) && h.waiter.Some?
  {
    var i :| 0 <= i < h.pc && h.prog[i].Send? && h.prog[i].cmd.ConfigurationDone?;
    SentBefore(h.prog, i, h.pc);
  }

  lemma {:induction false} UndispatchedIffWaiting(h: Shake)
    requires ProgGood(h) && W.Meets(h.sys.stop, h.sys.stopLog) && |h.sys.stop.regs| == 1 && h.waiter == Some(0)
    requires h.sys.stopLog != [] && h.sys.stopLog[0] == W.Register
    ensures W.Observed(h.sys.stop, 0) == W.Waiting ==> Dispatches(h.obs) == []
  {
    SoloWindow(h.sys.stopLog);
    assert W.Observed(h.sys.stop, 0) == W.FateOf(h.sys.stopLog, 0);
    if |h.sys.stopLog| == 1 { OnlyRegistrations(h.obs); }
  }

  /** Behind the only registration of a log there are only producer calls. */
  lemma {:induction false} OnlyRegistrationStays(log: seq<W.Op>)
    requires W.Registers(log) == 1
    ensures var p := W.PositionOf(log, 0); p + 1 < |log| ==> log[p + 1].Produce?
  {
    var p := W.PositionOf(log, 0);
    if p + 1 < |log| {
      assert log[..p + 1][..p] == log[..p] && log[..p + 2][..p + 1] == log[..p + 1];
      RegistersMonotone(log, p + 2);
    }
  }

  lemma {:induction false} LoneWaiterNotOrphaned(h: Shake)
    requires W.Meets(h.sys.stop, h.sys.stopLog) && |h.sys.stop.regs| == 1
    ensures W.Observed(h.sys.stop, 0) == W.Waiting || W.Observed(h.sys.stop, 0).Got?
  {
    OnlyRegistrationStays(h.sys.stopLog);
    assert W.Observed(h.sys.stop, 0) == W.FateOf(h.sys.stopLog, 0);
  }

  /** The program is at its last wait and no stop has come for it. */
  ghost predicate AtLastWait(h: Shake) {
    && h.result.None? && h.pc < |h.prog| && h.prog[h.pc].AwaitStop?
    && h.waiter.Some? && W.Observed(h.sys.stop, h.waiter.value) == W.Waiting
  }

  lemma StopIsNotStuck(h: Shake)
    requires Quiescent(h) && h.prog[h.pc].AwaitStop? && !AtLastWait(h)
    requires W.Meets(h.sys.stop, h.sys.stopLog)
    ensures OwnStep(h, true).Some?
  {
    ConfiguredInFrames(h);
    LoneWaiterNotOrphaned(h);
  }

  lemma CanHandOver(policy: Policy, h: Shake)
    requires SysFine(h.sys) && RecoveryGood(h.sys) && h.sys.reader.Handing?
    ensures GoodStep(policy, h, HandOver).Some?
  {
  }

  /** Under every policy, a start short of its last wait can always take a productive step. */
  lemma NeverStuck(policy: Policy, h: Shake) returns (op: GoodOp)
    requires ClosedGood(h) && h.result.None? && !AtLastWait(h)
    ensures GoodStep(policy, h, op).Some? && Productive(h, op) && !op.SendStop?
    ensures op.SendInit? ==> h.pc == 2 && h.cursor.Parked?
  {
    if h.sys.reader.Handing? {
      op := HandOver;
      CanHandOver(policy, h);
    } else if h.pc == |h.prog| {
      op := Run;
    } else {
      match h.prog[h.pc]
      case Send(_, _) => op := AwaitingIsNotStuck(policy, h);
      case SendAsync(_) => op := Run;
      case WaitInit => op := GateIsNotStuck(policy, h);
      case RegisterWaiter => op := Run;
      case AwaitAsync => op := LaunchReplyIsNotStuck(policy, h);
      case AwaitStop =>
        StopIsNotStuck(h);
        op := Run;
    }
  }

  /** At its last wait a launch can be sent its stop, whichever it is. */
  lemma LastWaitIsNotStuck(policy: Policy, h: Shake, entry: Event) returns (op: GoodOp)
    requires ClosedGood(h) && AtLastWait(h) && Careful(h.prog) && StopLike(entry)
    ensures GoodStep(policy, h, op).Some? && Productive(h, op) && (op.SendStop? ==> op.entry == entry)
  {
    if h.sys.reader.Handing? {
      op := HandOver;
      CanHandOver(policy, h);
    } else {
      ConfiguredInFrames(h);
      UndispatchedIffWaiting(h);
      op := SendStop(entry);
      AdapterCanAct(policy, h, op);
    }
  }

  // ----- the adapter's steps keep the invariant

  lemma {:induction false} FrameWasWritten(obs: seq<Obs>, cmd: Command)
    requires cmd in Frames(obs)
    ensures Wrote(cmd) in obs
  {
    if obs != [] && obs[|obs| - 1] != Wrote(cmd) {
      FrameWasWritten(obs[..|obs| - 1], cmd);
    }
  }

  /** Reading a message or handing a reply over moves no call's phase and nothing of the program. */
  lemma AdapterKeepsCalls(h: Shake, op: SysOp)
    requires ProgGood(h) && CallsOk(h) && SysFine(h.sys) && SysEnabled(h.sys, op) && (op.Read? || op.Hand?)
    ensures CallsOk(Via(h, op))
  {
    PhasesStay(h.sys, op);
    SamePhases(h, Via(h, op));
  }

  lemma PhasesStay(s: System, op: SysOp)
    requires SysFine(s) && SysEnabled(s, op) && (op.Read? || op.Hand?)
    ensures var d := SysStep(s, op).client;
            |d.calls| == |s.client.calls| && forall k | 0 <= k < |d.calls| :: d.calls[k].phase == s.client.calls[k].phase
  {
  }

  /** What is known of the calls depends on their phases and on where the program is. */
  lemma SamePhases(h: Shake, t: Shake)
    requires h.pc <= |h.prog| && CallsOk(h) && t == h.(sys := t.sys, obs := t.obs)
    requires |t.sys.client.calls| == |h.sys.client.calls|
    requires forall k | 0 <= k < |h.sys.client.calls| :: t.sys.client.calls[k].phase == h.sys.client.calls[k].phase
    ensures CallsOk(t)
  {
    assert Completed(t) == Completed(h) && Awaited(t) == Awaited(h);
  }

  lemma AnswerKeepsReplies(plan: seq<Command>, s: System, k: nat)
    requires SysFine(s) && RepliesOk(plan, s.client) && s.reader.Reading? && InPending(s.client, k)
    ensures var t := SysStep(s, Read(ResponseMessage(AnswerTo(plan, k))));
            && RepliesOk(plan, t.client) && t.latch == s.latch && t.reader.Handing?
            && t.stopLog == s.stopLog && t.stop == s.stop
  {
  }

  lemma HandKeepsReplies(plan: seq<Command>, s: System)
    requires Good(s.client) && s.stop.WellFormed() && RepliesOk(plan, s.client) && SysEnabled(s, Hand) && s.reader.Handing?
    ensures var t := SysStep(s, Hand);
            && RepliesOk(plan, t.client) && t.latch == s.latch && (t.reader.Reading? || t.reader.Handing?)
            && t.stopLog == s.stopLog && t.stop == s.stop
  {
    DeliverKeepsGood(s.client, 0);
    var held := s.client.taken[0];
    assert s.client.calls[held.call].sent + [held.reply] == [held.reply];
  }

  /** A step that leaves the stop waiter and the program alone keeps what is known about stops. */
  lemma QuietKeepsStop(h: Shake, t: Shake)
    requires h.pc <= |h.prog| && StopOk(h)
    requires t == h.(sys := t.sys) && t.sys.stop == h.sys.stop && t.sys.stopLog == h.sys.stopLog
    ensures StopOk(t)
  {
  }

  lemma StopRecordedLate(h: Shake, t: Shake, entry: Event)
    requires ProgGood(h) && StopOk(h) && Extends(h, t) && StopLike(entry)
    requires |h.sys.stop.regs| == W.Registers(h.sys.stopLog) == |t.sys.stop.regs|
    requires ConfigurationDone in Frames(h.obs)
    requires t.prog == h.prog && t.pc == h.pc && t.waiter == h.waiter
    requires t.obs == h.obs + [Dispatched(OutcomeOf(entry))]
    ensures StopOk(t)
  {
    FrameWasWritten(h.obs, ConfigurationDone);
    forall i | 0 <= i < |t.obs| && t.obs[i].Dispatched? ensures Wrote(ConfigurationDone) in t.obs[..i] {
      assert t.obs[..i] == h.obs[..i];
      assert h.obs[..|h.obs|] == h.obs;
    }
    if Careful(h.prog) { StepOpensLog(h, t); }
  }

  /** A stop-like event is one call on the stop waiter and touches nothing the program waits for besides. */
  lemma StopDispatch(h: Shake, entry: Event)
    requires SysFine(h.sys) && h.sys.reader.Reading? && StopLike(entry)
    ensures var t := Via(h, Read(EventMessage(entry)));
            && t.obs == h.obs + [Dispatched(OutcomeOf(entry))] && |t.sys.stop.regs| == |h.sys.stop.regs|
            && t.sys.client == h.sys.client && t.sys.latch == h.sys.latch && t.sys.reader == h.sys.reader
            && t == h.(sys := t.sys, obs := t.obs)
  {
  }

  lemma DispatchKeepsStopOk(h: Shake, entry: Event)
    requires ProgGood(h) && StopOk(h) && SysFine(h.sys) && h.sys.reader.Reading? && StopLike(entry)
    requires |h.sys.stop.regs| == W.Registers(h.sys.stopLog) && ConfigurationDone in Frames(h.obs)
    ensures StopOk(Via(h, Read(EventMessage(entry))))
  {
    var op := Read(EventMessage(entry));
    ViaExtends(h, op);
    StopDispatch(h, entry);
    StopRecordedLate(h, Via(h, op), entry);
  }

  lemma AnswerKeepsParts(h: Shake, k: nat)
    requires ProgGood(h) && Parts(h) && SysFine(h.sys) && h.sys.reader.Reading? && InPending(h.sys.client, k)
    ensures Parts(Via(h, Read(ResponseMessage(AnswerTo(Commands(h.prog), k)))))
  {
    var plan := Commands(h.prog);
    var e := Read(ResponseMessage(AnswerTo(plan, k)));
    AdapterKeepsCalls(h, e);
    AnswerKeepsReplies(plan, h.sys, k);
    QuietKeepsStop(h, Via(h, e));
  }

  lemma HandKeepsParts(h: Shake)
    requires ProgGood(h) && Parts(h) && SysFine(h.sys) && Good(h.sys.client) && SysEnabled(h.sys, Hand)
    ensures Parts(Via(h, Hand))
  {
    AdapterKeepsCalls(h, Hand);
    HandKeepsReplies(Commands(h.prog), h.sys);
    QuietKeepsStop(h, Via(h, Hand));
  }

  lemma InitKeepsParts(h: Shake)
    requires ProgGood(h) && Parts(h) && SysFine(h.sys) && h.sys.reader.Reading?
    ensures Parts(Via(h, Read(EventMessage(Initialized))))
  {
    var e := Read(EventMessage(Initialized));
    AdapterKeepsCalls(h, e);
    QuietKeepsStop(h, Via(h, e));
  }

  lemma StopKeepsParts(h: Shake, entry: Event)
    requires ProgGood(h) && Parts(h) && SysFine(h.sys) && h.sys.reader.Reading? && StopLike(entry)
    requires |h.sys.stop.regs| == W.Registers(h.sys.stopLog) && ConfigurationDone in Frames(h.obs)
    ensures Parts(Via(h, Read(EventMessage(entry))))
  {
    var e := Read(EventMessage(entry));
    AdapterKeepsCalls(h, e);
    DispatchKeepsStopOk(h, entry);
    StopDispatch(h, entry);
  }

  /** Chatter changes the messages read and the output channel, and nothing else. */
  lemma ChatterShape(h: Shake, message: DapMessage)
    requires SysFine(h.sys) && h.sys.reader.Reading? && IsChatter(message)
    ensures var t := Via(h, Read(message));
            t == h.(sys := h.sys.(read := h.sys.read + [message], sinks := Receive(h.sys.sinks, message)))
  {
  }

  lemma ChatterKeepsParts(h: Shake, message: DapMessage)
    requires ProgGood(h) && Parts(h) && SysFine(h.sys) && h.sys.reader.Reading? && IsChatter(message)
    ensures Parts(Via(h, Read(message)))
  {
    ChatterShape(h, message);
    AdapterKeepsCalls(h, Read(message));
    QuietKeepsStop(h, Via(h, Read(message)));
  }

  lemma AdapterKeepsParts(policy: Policy, h: Shake, op: GoodOp)
    requires ProgGood(h) && Parts(h) && SysFine(h.sys) && Good(h.sys.client)
    requires |h.sys.stop.regs| == W.Registers(h.sys.stopLog)
    requires !op.Run? && GoodStep(policy, h, op).Some?
    ensures Parts(GoodStep(policy, h, op).value)
  {
    match op
    case Answer(k) => AnswerKeepsParts(h, k);
    case HandOver => HandKeepsParts(h);
    case SendInit => InitKeepsParts(h);
    case SendStop(entry) => StopKeepsParts(h, entry);
    case Chatter(message) => ChatterKeepsParts(h, message);
  }

  // ----- the program's own steps keep the invariant

  ghost predicate Able(h: Shake) {
    ProgGood(h) && Parts(h) && SysFine(h.sys) && h.result.None? && h.pc < |h.prog|
  }

  predicate Sends(i: Instr) {
    i.Send? || i.SendAsync?
  }

  lemma StartKeepsParts(h: Shake)
    requires Able(h) && Sends(h.prog[h.pc]) && h.cursor.Between?
    ensures Parts(StartCall(h, h.prog[h.pc].Send?))
  {
    var t := Via(h, Caller(NextSeq(h.prog[h.pc].Send?)));
    QuietKeepsStop(h, t);
  }

  lemma RegisterKeepsParts(h: Shake)
    requires Able(h) && h.cursor.InCall? && Enabled(h.sys.client, Register(h.cursor.k))
    requires SeqOf(h.cursor.k) !in h.sys.client.pending
    ensures Parts(Via(h, Caller(Register(h.cursor.k))))
  {
    QuietKeepsStop(h, Via(h, Caller(Register(h.cursor.k))));
  }

  lemma {:induction false} WroteKeepsStop(h: Shake, t: Shake, cmd: Command)
    requires h.pc <= |h.prog| && StopOk(h)
    requires t == h.(sys := t.sys, cursor := t.cursor, obs := h.obs + [Wrote(cmd)])
    requires t.sys.stop == h.sys.stop && t.sys.stopLog == h.sys.stopLog
    ensures StopOk(t)
  {
    FrameRecorded(h.obs, cmd);
    forall i | 0 <= i < |t.obs| && t.obs[i].Dispatched? ensures Wrote(ConfigurationDone) in t.obs[..i] {
      assert t.obs[..i] == h.obs[..i];
    }
  }

  lemma WriteKeepsParts(h: Shake)
    requires Able(h) && Sends(h.prog[h.pc]) && h.cursor.InCall? && !h.cursor.written
    requires Enabled(h.sys.client, WriteOk(h.cursor.k))
    ensures Parts(CallStep(h, h.cursor.k, h.prog[h.pc].cmd, true).value)
  {
    var t := CallStep(h, h.cursor.k, h.prog[h.pc].cmd, true).value;
    WroteKeepsStop(h, t, h.prog[h.pc].cmd);
  }

  /** Passing an instruction that awaits nothing launch-related keeps what is known of stops. */
  lemma NextKeepsStop(h: Shake, t: Shake)
    requires h.pc < |h.prog| && StopOk(h)
    requires t == h.(sys := t.sys, pc := h.pc + 1, cursor := t.cursor, async := t.async)
    requires t.sys.stop == h.sys.stop && t.sys.stopLog == h.sys.stopLog
    ensures StopOk(t)
  {
  }

  /** Every reply that arrives is the success the instruction asks for. */
  lemma ReplyPasses(h: Shake, k: nat, check: Check)
    requires RepliesOk(Commands(h.prog), h.sys.client) && Enabled(h.sys.client, Await(k)) && CallGood(h.sys.client, k)
    requires check.SuccessOf? ==> check.command == NameAt(Commands(h.prog), k)
    ensures Passes(Received(h.sys.client.calls[k]), check)
  {
  }

  lemma AwaitSendKeepsParts(h: Shake)
    requires Able(h) && h.prog[h.pc].Send? && h.cursor.InCall? && h.cursor.written
    requires Enabled(h.sys.client, Await(h.cursor.k)) && CallGood(h.sys.client, h.cursor.k)
    ensures AwaitStep(h, h.cursor.k, h.prog[h.pc].check).Some?
    ensures Parts(AwaitStep(h, h.cursor.k, h.prog[h.pc].check).value)
  {
    var k := h.cursor.k;
    PlanAt(h);
    ReplyPasses(h, k, h.prog[h.pc].check);
    AwaitedShape(h, k, h.prog[h.pc].check);
    NumberOf(h.prog, h.pc);
    SendReturned(h, AwaitStep(h, k, h.prog[h.pc].check).value);
  }

  /** What awaiting a reply that passes does to the rest. */
  lemma AwaitedShape(h: Shake, k: nat, check: Check)
    requires SysFine(h.sys) && Enabled(h.sys.client, Await(k)) && Passes(Received(h.sys.client.calls[k]), check)
    ensures AwaitStep(h, k, check).Some?
    ensures var t := AwaitStep(h, k, check).value;
            && t == h.(sys := t.sys, pc := h.pc + 1, cursor := Between)
            && t.sys == h.sys.(client := t.sys.client)
            && t.sys.client.taken == h.sys.client.taken && |t.sys.client.calls| == |h.sys.client.calls|
            && t.sys.client.calls == h.sys.client.calls[k := t.sys.client.calls[k]]
            && t.sys.client.calls[k].phase.Returned? && t.sys.client.calls[k].sent == h.sys.client.calls[k].sent
  {
  }

  lemma SendReturned(h: Shake, t: Shake)
    requires h.pc < |h.prog| && Parts(h) && h.prog[h.pc].Send? && h.cursor.InCall? && Completed(h) != 1
    requires t == h.(sys := t.sys, pc := h.pc + 1, cursor := Between) && t.sys == h.sys.(client := t.sys.client)
    requires t.sys.client.taken == h.sys.client.taken && h.cursor.k < |h.sys.client.calls| == |t.sys.client.calls|
    requires t.sys.client.calls == h.sys.client.calls[h.cursor.k := t.sys.client.calls[h.cursor.k]]
    requires t.sys.client.calls[h.cursor.k].phase.Returned?
    requires t.sys.client.calls[h.cursor.k].sent == h.sys.client.calls[h.cursor.k].sent
    ensures Parts(t)
  {
    SendReturnedCalls(h, t);
    NextKeepsStop(h, t);
  }

  lemma SendReturnedCalls(h: Shake, t: Shake)
    requires h.pc < |h.prog| && CallsOk(h) && h.prog[h.pc].Send? && h.pc != 1 && h.cursor.InCall? && Completed(h) != 1
    requires t.prog == h.prog && t.pc == h.pc + 1 && t.cursor.Between? && t.async == h.async
    requires h.cursor.k < |h.sys.client.calls| == |t.sys.client.calls|
    requires t.sys.client.calls == h.sys.client.calls[h.cursor.k := t.sys.client.calls[h.cursor.k]]
    requires t.sys.client.calls[h.cursor.k].phase.Returned?
    ensures CallsOk(t)
  {
    PassedOne(h, t);
  }

  /** What passing one instruction does to the two counts. */
  lemma PassedOne(h: Shake, t: Shake)
    requires h.pc < |h.prog| && t.prog == h.prog && t.pc == h.pc + 1
    ensures Completed(t) == Completed(h) + if Sends(h.prog[h.pc]) then 1 else 0
    ensures Awaited(t) <==> Awaited(h) || h.prog[h.pc].AwaitAsync?
  {
    CommandsExtend(h.prog, h.pc);
    if h.prog[h.pc].AwaitAsync? { assert t.prog[h.pc].AwaitAsync?; }
  }

  lemma AsyncKeepsParts(h: Shake)
    requires Able(h) && h.prog[h.pc].SendAsync? && h.cursor.InCall? && h.cursor.written
    ensures Parts(Next(h.(async := Some(h.cursor.k))))
  {
    var t := Next(h.(async := Some(h.cursor.k)));
    NumberOf(h.prog, h.pc);
    CommandsExtend(h.prog, h.pc);
    NextKeepsStop(h, t);
    assert !Awaited(t);
  }

  lemma GateKeepsParts(h: Shake)
    requires Able(h) && h.prog[h.pc].WaitInit? && !h.cursor.InCall?
    ensures Parts(Next(h))
    ensures h.cursor.Between? && !h.sys.latch.fired ==>
              Parts(Via(h, Park).(cursor := Parked(h.sys.latch.parks)))
  {
    CommandsExtend(h.prog, h.pc);
    NextKeepsStop(h, Next(h));
    assert Awaited(Next(h)) == Awaited(h);
    if h.cursor.Between? && !h.sys.latch.fired {
      QuietKeepsStop(h, Via(h, Park));
    }
  }

  lemma AwaitAsyncKeepsCalls(h: Shake, t: Shake)
    requires h.pc < |h.prog| && CallsOk(h) && h.prog[h.pc].AwaitAsync? && Completed(h) >= 2 && h.cursor.Between? && h.pc >= 2
    requires t.prog == h.prog && t.pc == h.pc + 1 && t.cursor.Between? && t.async == h.async
    requires |t.sys.client.calls| == |h.sys.client.calls|
    requires forall k | 0 <= k < |h.sys.client.calls| ::
               if k == 1 then t.sys.client.calls[k].phase.Returned?
               else t.sys.client.calls[k].phase == h.sys.client.calls[k].phase
    ensures CallsOk(t)
  {
    CommandsExtend(h.prog, h.pc);
    assert t.prog[h.pc].AwaitAsync?;
    assert Awaited(t);
  }

  lemma AwaitAsyncKeepsParts(h: Shake)
    requires Able(h) && h.prog[h.pc].AwaitAsync? && h.cursor.Between? && h.async == Some(1)
    requires Enabled(h.sys.client, Await(1)) && CallGood(h.sys.client, 1)
    ensures AwaitStep(h, 1, Success).Some? && Parts(AwaitStep(h, 1, Success).value)
  {
    ReplyPasses(h, 1, Success);
    NumberOf(h.prog, h.pc);
    var t := AwaitStep(h, 1, Success).value;
    AwaitAsyncKeepsCalls(h, t);
    NextKeepsStop(h, t);
  }

  lemma RegistrationKeepsStop(h: Shake, t: Shake)
    requires ProgGood(h) && StopOk(h) && h.pc < |h.prog| && h.prog[h.pc].RegisterWaiter? && h.waiter.None?
    requires |h.sys.stop.regs| == W.Registers(h.sys.stopLog) && Extends(h, t)
    requires t.prog == h.prog && t.pc == h.pc + 1 && t.waiter.Some? && |t.sys.stop.regs| == 1
    requires t.obs == h.obs + [Registration]
    ensures StopOk(t)
  {
    ProjectionsExtend(h.obs, Registration);
    assert [Registration][..0] == [];
    forall i | 0 <= i < |t.obs| && t.obs[i].Dispatched? ensures Wrote(ConfigurationDone) in t.obs[..i] {
      assert t.obs[..i] == h.obs[..i];
    }
    assert t.prog[h.pc].RegisterWaiter?;
    if Careful(h.prog) { StepOpensLog(h, t); }
  }

  lemma RegisterWaiterKeepsParts(h: Shake)
    requires Able(h) && h.prog[h.pc].RegisterWaiter? && h.cursor.Between?
    requires |h.sys.stop.regs| == W.Registers(h.sys.stopLog)
    ensures Parts(OwnStep(h, true).value)
  {
    var t := OwnStep(h, true).value;
    assert h.waiter.None?;
    RegistrationShape(h);
    PassKeepsCalls(h, t);
    OwnExtends(h, true);
    RegistrationKeepsStop(h, t);
  }

  lemma RegistrationShape(h: Shake)
    requires SysFine(h.sys) && h.result.None? && h.pc < |h.prog| && h.prog[h.pc].RegisterWaiter? && h.cursor.Between?
    ensures var t := OwnStep(h, true).value;
            && t == h.(sys := t.sys, pc := h.pc + 1, waiter := Some(|h.sys.stop.regs|), obs := h.obs + [Registration])
            && t.sys == h.sys.(stop := t.sys.stop, stopLog := t.sys.stopLog)
            && |t.sys.stop.regs| == |h.sys.stop.regs| + 1
  {
  }

  /** Passing an instruction that is no request and awaits no response changes no call. */
  lemma PassKeepsCalls(h: Shake, t: Shake)
    requires 2 <= h.pc < |h.prog| && CallsOk(h) && !Sends(h.prog[h.pc]) && !h.prog[h.pc].AwaitAsync?
    requires h.cursor.Between? && t.cursor.Between? && t.prog == h.prog && t.pc == h.pc + 1 && t.async == h.async
    requires t.sys.client == h.sys.client
    ensures CallsOk(t)
  {
    PassedOne(h, t);
  }

  lemma AwaitStopKeepsParts(h: Shake)
    requires Able(h) && h.prog[h.pc].AwaitStop? && OwnStep(h, true).Some?
    requires W.Meets(h.sys.stop, h.sys.stopLog)
    ensures Parts(OwnStep(h, true).value)
  {
    ConfiguredInFrames(h);
    LoneWaiterNotOrphaned(h);
    var t := OwnStep(h, true).value;
    assert t == h.(result := t.result);
    assert Awaited(t) == Awaited(h) && Completed(t) == Completed(h);
  }

  lemma SendStepKeepsParts(h: Shake)
    requires Able(h) && Sends(h.prog[h.pc]) && OwnStep(h, true).Some?
    requires Good(h.sys.client) && |h.sys.client.calls| <= TWO64
    ensures Parts(OwnStep(h, true).value)
  {
    if h.cursor.Between? {
      StartKeepsParts(h);
    } else if h.cursor.written {
      if h.prog[h.pc].Send? {
        assert CallGood(h.sys.client, h.cursor.k);
        AwaitSendKeepsParts(h);
      } else {
        AsyncKeepsParts(h);
      }
    } else if Enabled(h.sys.client, Register(h.cursor.k)) {
      RegisterKeepsGood(h.sys.client, h.cursor.k);
      RegisterKeepsParts(h);
    } else {
      WriteKeepsParts(h);
    }
  }

  lemma OwnKeepsParts(h: Shake)
    requires ClosedGood(h) && OwnStep(h, true).Some? && |h.sys.client.calls| <= TWO64
    ensures Parts(OwnStep(h, true).value)
  {
    if h.pc == |h.prog| {
      var t := OwnStep(h, true).value;
      assert t == h.(result := t.result);
      assert Awaited(t) == Awaited(h);
    } else {
      match h.prog[h.pc]
      case Send(_, _) => SendStepKeepsParts(h);
      case SendAsync(_) => SendStepKeepsParts(h);
      case WaitInit => GateKeepsParts(h);
      case RegisterWaiter => RegisterWaiterKeepsParts(h);
      case AwaitAsync =>
        assert CallGood(h.sys.client, 1);
        AwaitAsyncKeepsParts(h);
      case AwaitStop => AwaitStopKeepsParts(h);
    }
  }

  lemma PartsAfter(policy: Policy, h: Shake, op: GoodOp)
    requires ClosedGood(h) && |h.sys.client.calls| <= TWO64
    requires GoodStep(policy, h, op).Some?
    ensures Parts(GoodStep(policy, h, op).value)
  {
    if op.Run? { OwnKeepsParts(h); } else { AdapterKeepsParts(policy, h, op); }
  }

  lemma SystemAddsOneCall(s: System, op: SysOp)
    requires SysFine(s) && SysEnabled(s, op)
    ensures |SysStep(s, op).client.calls| <= |s.client.calls| + 1
  {
  }

  lemma AddsOneCall(h: Shake, op: HOp)
    requires SysFine(h.sys) && HStep(h, op).Some?
    ensures |HStep(h, op).value.sys.client.calls| <= |h.sys.client.calls| + 1
  {
    var o := HStepSystem(h, op);
    if o.Some? { SystemAddsOneCall(h.sys, o.value); }
  }

  lemma GoodStepKeepsClosed(policy: Policy, h: Shake, op: GoodOp)
    requires ClosedGood(h) && |h.sys.client.calls| < TWO64
    requires GoodStep(policy, h, op).Some?
    ensures ClosedGood(GoodStep(policy, h, op).value)
    ensures GoodStep(policy, h, op).value.prog == h.prog
  {
    var step := AsStep(Commands(h.prog), op);
    HStepSameProgram(h, step);
    AddsOneCall(h, step);
    PartsAfter(policy, h, op);
    HStepKeepsGood(h, step);
  }

  // ----- a measure

  function SubStep(h: Shake): nat {
    match h.cursor
    case Between => 0
    case Parked(_) => 1
    case InCall(k, written) =>
      if written then 3
      else if k < |h.sys.client.calls| && h.sys.client.calls[k].phase.Numbered? then 1 else 2
  }

  function Measure(h: Shake): int {
    (if h.result.Some? then 0 else 3 * (4 * (|h.prog| - h.pc) + 4 - SubStep(h)))
    + 2 * |h.sys.client.pending| + |h.sys.client.taken|
    + (if h.sys.latch.fired then 0 else 1) + (if Dispatches(h.obs) == [] then 1 else 0)
  }

  lemma CardRemove(m: map<int, nat>, q: int)
    requires q in m
    ensures |m - {q}| == |m| - 1
  {
    assert (m - {q}).Keys == m.Keys - {q};
  }

  lemma CardAdd(m: map<int, nat>, q: int, k: nat)
    requires q !in m
    ensures |m[q := k]| == |m| + 1
  {
    assert m[q := k].Keys == m.Keys + {q};
  }

  lemma {:induction false} StopRecorded(h: Shake, entry: Event)
    requires SysFine(h.sys) && h.sys.reader.Reading? && StopLike(entry)
    ensures Dispatches(Via(h, Read(EventMessage(entry))).obs) == Dispatches(h.obs) + [OutcomeOf(entry)]
  {
    StopDispatch(h, entry);
    var o := Dispatched(OutcomeOf(entry));
    ProjectionsExtend(h.obs, o);
    assert [o][..0] == [];
  }

  lemma StopDecreases(h: Shake, entry: Event)
    requires ProgGood(h) && SysFine(h.sys) && h.sys.reader.Reading? && StopLike(entry)
    ensures Measure(Via(h, Read(EventMessage(entry)))) == Measure(h) - if Dispatches(h.obs) == [] then 1 else 0
  {
    StopDispatch(h, entry);
    StopRecorded(h, entry);
  }

  lemma AnswerDecreases(h: Shake, message: DapMessage)
    requires ProgGood(h) && SysFine(h.sys) && h.sys.reader.Reading? && message.ResponseMessage?
    requires message.response.requestSeq in h.sys.client.pending
    ensures Measure(Via(h, Read(message))) < Measure(h)
  {
    CardRemove(h.sys.client.pending, message.response.requestSeq);
  }

  lemma HandDecreases(h: Shake)
    requires ProgGood(h) && SysFine(h.sys) && SysEnabled(h.sys, Hand)
    ensures Measure(Via(h, Hand)) < Measure(h)
  {
    var t := Via(h, Hand);
    assert t.obs == h.obs && t.sys.latch == h.sys.latch && t.sys.client.pending == h.sys.client.pending;
    PhasesStay(h.sys, Hand);
    assert SubStep(t) == SubStep(h);
  }

  lemma InitDecreases(h: Shake)
    requires ProgGood(h) && SysFine(h.sys) && h.sys.reader.Reading? && !h.sys.latch.fired
    ensures Measure(Via(h, Read(EventMessage(Initialized)))) < Measure(h)
  {
    var t := Via(h, Read(EventMessage(Initialized)));
    assert t.obs == h.obs && t.sys.client == h.sys.client && t.sys.latch.fired;
  }

  /** Every step of the adapter brings the end nearer, or is chatter and leaves it as near. */
  lemma AdapterDecreases(policy: Policy, h: Shake, op: GoodOp)
    requires ProgGood(h) && SysFine(h.sys)
    requires !op.Run? && GoodStep(policy, h, op).Some?
    ensures Measure(GoodStep(policy, h, op).value) <= Measure(h) - if Productive(h, op) then 1 else 0
  {
    match op
    case Answer(k) => AnswerDecreases(h, ResponseMessage(AnswerTo(Commands(h.prog), k)));
    case HandOver => HandDecreases(h);
    case SendInit => InitDecreases(h);
    case SendStop(entry) => StopDecreases(h, entry);
    case Chatter(message) => ChatterShape(h, message);
  }

  lemma RegisterDecreases(h: Shake)
    requires ProgGood(h) && SysFine(h.sys) && h.result.None?
    requires h.cursor.InCall? && !h.cursor.written && Enabled(h.sys.client, Register(h.cursor.k))
    requires SeqOf(h.cursor.k) !in h.sys.client.pending
    ensures Measure(Via(h, Caller(Register(h.cursor.k)))) < Measure(h)
  {
    CardAdd(h.sys.client.pending, SeqOf(h.cursor.k), h.cursor.k);
  }

  lemma WriteDecreases(h: Shake)
    requires ProgGood(h) && SysFine(h.sys) && h.result.None?
    requires h.cursor.InCall? && !h.cursor.written && Enabled(h.sys.client, WriteOk(h.cursor.k))
    ensures Measure(CallStep(h, h.cursor.k, h.prog[h.pc].cmd, true).value) < Measure(h)
  {
    FrameRecorded(h.obs, h.prog[h.pc].cmd);
  }

  lemma AwaitDecreases(h: Shake, k: nat, check: Check)
    requires ProgGood(h) && SysFine(h.sys) && h.result.None? && h.pc < |h.prog| && AwaitStep(h, k, check).Some?
    ensures Measure(AwaitStep(h, k, check).value) < Measure(h)
  {
  }

  lemma SendDecreases(h: Shake)
    requires ProgGood(h) && SysFine(h.sys) && OwnStep(h, true).Some? && h.pc < |h.prog| && Sends(h.prog[h.pc])
    requires h.cursor.InCall? && Enabled(h.sys.client, Register(h.cursor.k)) ==> SeqOf(h.cursor.k) !in h.sys.client.pending
    ensures Measure(OwnStep(h, true).value) < Measure(h)
  {
    if h.cursor.InCall? {
      if h.cursor.written {
        if h.prog[h.pc].Send? { AwaitDecreases(h, h.cursor.k, h.prog[h.pc].check); }
      } else if Enabled(h.sys.client, Register(h.cursor.k)) {
        RegisterDecreases(h);
      } else {
        WriteDecreases(h);
      }
    }
  }

  lemma {:induction false} RegisterWaiterDecreases(h: Shake)
    requires SysFine(h.sys) && h.result.None? && h.pc < |h.prog| && h.prog[h.pc].RegisterWaiter?
    ensures Measure(OwnStep(h, true).value) < Measure(h)
  {
    ProjectionsExtend(h.obs, Registration);
    assert [Registration][..0] == [];
    assert OwnStep(h, true).value.obs == h.obs + [Registration];
  }

  lemma {:induction false} OtherDecreases(h: Shake)
    requires ProgGood(h) && SysFine(h.sys) && OwnStep(h, true).Some? && (h.pc < |h.prog| ==> !Sends(h.prog[h.pc]))
    ensures Measure(OwnStep(h, true).value) < Measure(h)
  {
    if h.pc < |h.prog| {
      if h.prog[h.pc].RegisterWaiter? { RegisterWaiterDecreases(h); }
      else if h.prog[h.pc].AwaitAsync? { AwaitDecreases(h, h.async.value, Success); }
    }
  }

  lemma OwnDecreases(h: Shake)
    requires ProgGood(h) && SysFine(h.sys) && Good(h.sys.client) && |h.sys.client.calls| <= TWO64
    requires OwnStep(h, true).Some?
    ensures Measure(OwnStep(h, true).value) < Measure(h)
  {
    if h.pc < |h.prog| && Sends(h.prog[h.pc]) {
      if h.cursor.InCall? && Enabled(h.sys.client, Register(h.cursor.k)) {
        RegisterKeepsGood(h.sys.client, h.cursor.k);
      }
      SendDecreases(h);
    } else {
      OtherDecreases(h);
    }
  }

  /** Every productive step brings the end nearer, and chatter does not move it away. */
  lemma Decreases(policy: Policy, h: Shake, op: GoodOp)
    requires HGood(h) && |h.sys.client.calls| <= TWO64 && GoodStep(policy, h, op).Some?
    ensures Measure(GoodStep(policy, h, op).value) <= Measure(h) - if Productive(h, op) then 1 else 0
  {
    if op.Run? { OwnDecreases(h); } else { AdapterDecreases(policy, h, op); }
  }

  // ----- every run of a start

  /** The most productive steps a cooperative start can take. */
  function StepBound(prog: seq<Instr>): int {
    12 * |prog| + 14
  }

  lemma {:induction false} BeginClosed(prog: seq<Instr>)
    requires Shaped(prog)
    ensures ClosedGood(Begin(prog)) && Measure(Begin(prog)) == StepBound(prog)
  {
    BeginGood(prog);
    assert prog[..0] == [];
  }

  lemma {:induction false} GoodRunClosed(policy: Policy, prog: seq<Instr>, ops: seq<GoodOp>)
    requires Shaped(prog) && |Commands(prog)| < TWO64 && GoodRun(policy, prog, ops).Some?
    ensures var h := GoodRun(policy, prog, ops).value;
            && h.prog == prog && ClosedGood(h)
            && Effort(policy, prog, ops) + Measure(h) <= StepBound(prog)
  {
    if ops == [] {
      BeginClosed(prog);
    } else {
      var h := GoodRun(policy, prog, ops[..|ops| - 1]).value;
      var op := ops[|ops| - 1];
      GoodRunClosed(policy, prog, ops[..|ops| - 1]);
      CompletedBound(h);
      GoodStepKeepsClosed(policy, h, op);
      Decreases(policy, h, op);
    }
  }

  lemma MeasureNonNegative(h: Shake)
    requires ProgGood(h)
    ensures Measure(h) >= 0
  {
  }

  // ----- launch

  lemma {:induction false} PlainOutcome(h: Shake)
    requires ProgGood(h) && StopOk(h) && FlowOk(h) && h.result.Some?
    requires forall j | 0 <= j < |h.prog| :: !h.prog[j].RegisterWaiter?
    ensures h.result == Some(Done(None))
  {
    assert h.waiter.None?;
  }

  /** What a launch ends with: the first stop-like event dispatched, if it waits for one. */
  ghost predicate Expected(spec: LaunchSpec, h: Shake) {
    if spec.stopOnEntry
    then Dispatches(h.obs) != [] && h.result == Some(Done(Some(Dispatches(h.obs)[0])))
    else h.result == Some(Done(None))
  }

  lemma {:induction false} ExpectedOutcome(spec: LaunchSpec, h: Shake)
    requires h.prog == LaunchProgram(spec) && ClosedGood(h) && h.result.Some?
    ensures Expected(spec, h)
  {
    if spec.stopOnEntry {
      LaunchIsCareful(spec);
      LaunchEndsWaiting(spec, h);
      SoloFate(h);
    } else {
      NoWaiter(spec);
      PlainOutcome(h);
    }
  }

  lemma NoWaiter(spec: LaunchSpec)
    requires !spec.stopOnEntry
    ensures forall j | 0 <= j < |LaunchProgram(spec)| ::
              !LaunchProgram(spec)[j].RegisterWaiter? && !LaunchProgram(spec)[j].AwaitStop?
  {
    var n := LaunchParts(spec);
  }

  /** The step that brings an unfinished launch on; a stop it sends is `entry`. */
  lemma LaunchStep(policy: Policy, spec: LaunchSpec, h: Shake, entry: Event) returns (op: GoodOp)
    requires h.prog == LaunchProgram(spec) && ClosedGood(h) && h.result.None? && StopLike(entry)
    ensures GoodStep(policy, h, op).Some? && Productive(h, op) && (op.SendStop? ==> op.entry == entry)
  {
    if AtLastWait(h) {
      if !spec.stopOnEntry { NoWaiter(spec); }
      LaunchIsCareful(spec);
      op := LastWaitIsNotStuck(policy, h, entry);
    } else {
      op := NeverStuck(policy, h);
    }
  }

  /**
   * Whether the launch response comes before `initialized`, after it, or only after
   * `configurationDone`, and whatever else the adapter sends in between: a launch takes at most
   * `StepBound` productive steps, has one to take until it has a result, and the result is the
   * first stop-like event, or none if it waits for none.
   */
  lemma {:induction false} LaunchMakesProgress(policy: Policy, spec: LaunchSpec, ops: seq<GoodOp>)
    requires |LaunchPlan(spec)| < TWO64 && GoodRun(policy, LaunchProgram(spec), ops).Some?
    ensures var h := GoodRun(policy, LaunchProgram(spec), ops).value;
            && Effort(policy, LaunchProgram(spec), ops) <= StepBound(LaunchProgram(spec))
            && (h.result.None? ==> exists op :: GoodStep(policy, h, op).Some? && Productive(h, op))
            && (h.result.Some? ==> Expected(spec, h))
  {
    var prog := LaunchProgram(spec);
    LaunchShaped(spec);
    LaunchCommands(spec);
    GoodRunClosed(policy, prog, ops);
    var h := GoodRun(policy, prog, ops).value;
    MeasureNonNegative(h);
    if h.result.None? {
      var op := LaunchStep(policy, spec, h, TerminatedEvent);
    } else {
      ExpectedOutcome(spec, h);
    }
  }

  /** The program's own steps dispatch nothing. */
  lemma {:induction false} OwnDispatchesNothing(h: Shake)
    requires ProgGood(h) && SysFine(h.sys) && OwnStep(h, true).Some?
    ensures Dispatches(OwnStep(h, true).value.obs) == Dispatches(h.obs)
  {
    if h.pc < |h.prog| {
      if h.prog[h.pc].RegisterWaiter? {
        RegisterDispatchesNothing(h);
      } else if Sends(h.prog[h.pc]) {
        SendDispatchesNothing(h);
      } else {
        WaitObservesNothing(h);
      }
    }
  }

  lemma {:induction false} RegisterDispatchesNothing(h: Shake)
    requires SysFine(h.sys) && OwnStep(h, true).Some? && h.pc < |h.prog| && h.prog[h.pc].RegisterWaiter?
    ensures Dispatches(OwnStep(h, true).value.obs) == Dispatches(h.obs)
  {
    ProjectionsExtend(h.obs, Registration);
    assert [Registration][..0] == [];
    assert OwnStep(h, true).value.obs == h.obs + [Registration];
  }

  lemma WaitObservesNothing(h: Shake)
    requires SysFine(h.sys) && OwnStep(h, true).Some? && h.pc < |h.prog| && !Sends(h.prog[h.pc]) && !h.prog[h.pc].RegisterWaiter?
    ensures OwnStep(h, true).value.obs == h.obs
  {
  }

  lemma {:induction false} SendDispatchesNothing(h: Shake)
    requires ProgGood(h) && SysFine(h.sys) && OwnStep(h, true).Some? && h.pc < |h.prog| && Sends(h.prog[h.pc])
    ensures Dispatches(OwnStep(h, true).value.obs) == Dispatches(h.obs)
  {
    SendObserved(h);
    if OwnStep(h, true).value.obs != h.obs {
      FrameRecorded(h.obs, h.prog[h.pc].cmd);
    }
  }

  lemma SendObserved(h: Shake)
    requires ProgGood(h) && SysFine(h.sys) && OwnStep(h, true).Some? && h.pc < |h.prog| && Sends(h.prog[h.pc])
    ensures OwnStep(h, true).value.obs == h.obs || OwnStep(h, true).value.obs == h.obs + [Wrote(h.prog[h.pc].cmd)]
  {
    if h.cursor.InCall? && !h.cursor.written {
      CallObserved(h, h.cursor.k, h.prog[h.pc].cmd);
    }
  }

  lemma CallObserved(h: Shake, k: nat, cmd: Command)
    requires SysFine(h.sys) && CallStep(h, k, cmd, true).Some?
    ensures CallStep(h, k, cmd, true).value.obs == h.obs || CallStep(h, k, cmd, true).value.obs == h.obs + [Wrote(cmd)]
  {
  }

  lemma {:induction false} StepDispatches(policy: Policy, h: Shake, op: GoodOp)
    requires ProgGood(h) && SysFine(h.sys) && GoodStep(policy, h, op).Some?
    ensures Dispatches(GoodStep(policy, h, op).value.obs)
         == Dispatches(h.obs) + if op.SendStop? then [OutcomeOf(op.entry)] else []
  {
    match op
    case Run => OwnDispatchesNothing(h);
    case SendStop(entry) => StopRecorded(h, entry);
    case Chatter(message) => ChatterShape(h, message);
    case _ =>
  }

  lemma RunGrows(policy: Policy, prog: seq<Instr>, ops: seq<GoodOp>, op: GoodOp)
    requires GoodRun(policy, prog, ops).Some? && GoodStep(policy, GoodRun(policy, prog, ops).value, op).Some?
    ensures GoodRun(policy, prog, ops + [op]) == GoodStep(policy, GoodRun(policy, prog, ops).value, op)
    ensures Effort(policy, prog, ops + [op])
         == Effort(policy, prog, ops) + if Productive(GoodRun(policy, prog, ops).value, op) then 1 else 0
  {
    assert (ops + [op])[..|ops|] == ops;
  }

  /** The first stop-like event, if there was one, else the one to come. */
  function FirstOr(dispatched: seq<StopOutcome>, entry: Event): StopOutcome
    requires StopLike(entry)
  {
    if dispatched != [] then dispatched[0] else OutcomeOf(entry)
  }

  /** Every partial run can be completed; if no stop was sent yet, with any stop that is sent now. */
  lemma {:induction false} LaunchFinishes(policy: Policy, spec: LaunchSpec, ops: seq<GoodOp>, entry: Event)
    returns (all: seq<GoodOp>)
    requires |LaunchPlan(spec)| < TWO64 && GoodRun(policy, LaunchProgram(spec), ops).Some? && StopLike(entry)
    ensures ops <= all && GoodRun(policy, LaunchProgram(spec), all).Some?
    ensures GoodRun(policy, LaunchProgram(spec), all).value.result ==
              Some(Done(if spec.stopOnEntry
                        then Some(FirstOr(Dispatches(GoodRun(policy, LaunchProgram(spec), ops).value.obs), entry)) else None))
    decreases StepBound(LaunchProgram(spec)) - Effort(policy, LaunchProgram(spec), ops)
  {
    var prog := LaunchProgram(spec);
    LaunchMakesProgress(policy, spec, ops);
    LaunchShaped(spec);
    LaunchCommands(spec);
    GoodRunClosed(policy, prog, ops);
    var h := GoodRun(policy, prog, ops).value;
    all := ops;
    if h.result.None? {
      var op := LaunchStep(policy, spec, h, entry);
      RunGrows(policy, prog, ops, op);
      StepDispatches(policy, h, op);
      LaunchMakesProgress(policy, spec, ops + [op]);
      all := LaunchFinishes(policy, spec, ops + [op], entry);
    }
  }

  // ----- attach

  lemma AttachShaped()
    ensures Shaped(ATTACH_PROGRAM) && |Commands(ATTACH_PROGRAM)| < TWO64
  {
    var prog := ATTACH_PROGRAM;
    assert prog[4] == Send(ConfigurationDone, Unchecked) && prog[6] == RegisterWaiter;
    CommandsShort(prog);
  }

  lemma {:induction false} CommandsShort(prog: seq<Instr>)
    ensures |Commands(prog)| <= |prog|
  {
    if prog != [] { CommandsShort(prog[..|prog| - 1]); }
  }

  /**
   * Attach against the same adapters: bounded in the same way, never stuck short of its last
   * wait, and there blocked exactly until a stop-like event comes that its registration precedes.
   */
  lemma {:induction false} AttachMakesProgress(policy: Policy, ops: seq<GoodOp>)
    requires GoodRun(policy, ATTACH_PROGRAM, ops).Some?
    ensures var h := GoodRun(policy, ATTACH_PROGRAM, ops).value;
            && Effort(policy, ATTACH_PROGRAM, ops) <= StepBound(ATTACH_PROGRAM)
            && (h.result.None? && !AtLastWait(h) ==> exists op :: GoodStep(policy, h, op).Some? && Productive(h, op) && !op.SendStop?)
            && (AtLastWait(h) ==> OwnStep(h, true).None?)
            && (h.result.Some? ==>
                  && h.waiter.Some? && h.result.value.Done? && h.result.value.outcome.Some?
                  && W.FateOf(h.sys.stopLog, h.waiter.value) == W.Got(h.result.value.outcome.value))
  {
    AttachShaped();
    GoodRunClosed(policy, ATTACH_PROGRAM, ops);
    AttachNow(policy, GoodRun(policy, ATTACH_PROGRAM, ops).value);
  }

  lemma AttachNow(policy: Policy, h: Shake)
    requires h.prog == ATTACH_PROGRAM && ClosedGood(h)
    ensures Measure(h) >= 0
    ensures h.result.None? && !AtLastWait(h) ==> exists op :: GoodStep(policy, h, op).Some? && Productive(h, op) && !op.SendStop?
    ensures AtLastWait(h) ==> OwnStep(h, true).None?
    ensures h.result.Some? ==>
              && h.waiter.Some? && h.result.value.Done? && h.result.value.outcome.Some?
              && W.FateOf(h.sys.stopLog, h.waiter.value) == W.Got(h.result.value.outcome.value)
  {
    MeasureNonNegative(h);
    if h.result.Some? {
      AttachOutcome(h);
    } else if !AtLastWait(h) {
      var op := NeverStuck(policy, h);
    }
  }

  lemma {:induction false} AttachOutcome(h: Shake)
    requires h.prog == ATTACH_PROGRAM && ClosedGood(h) && h.result.Some?
    ensures h.waiter.Some? && h.result.value.Done? && h.result.value.outcome.Some?
    ensures W.FateOf(h.sys.stopLog, h.waiter.value) == W.Got(h.result.value.outcome.value)
  {
    assert ATTACH_PROGRAM[7] == AwaitStop;
    assert h.result != Some(Done(None));
    assert W.Observed(h.sys.stop, h.waiter.value) == W.FateOf(h.sys.stopLog, h.waiter.value);
  }

  /** A stop-like event that comes at the last wait is what the program then reports. */
  lemma StopEndsLastWait(h: Shake, entry: Event)
    requires SysFine(h.sys) && W.Meets(h.sys.stop, h.sys.stopLog) && ProgGood(h)
    requires AtLastWait(h) && h.sys.reader.Reading? && StopLike(entry)
    ensures var t := Via(h, Read(EventMessage(entry)));
            OwnStep(t, true) == Some(t.(result := Some(Done(Some(OutcomeOf(entry))))))
  {
    var i := h.waiter.value;
    assert h.sys.stop.regs[i].senderLive && h.sys.stop.slot == Some(i);
    var t := Via(h, Read(EventMessage(entry)));
    assert t.sys.stop == W.Apply(h.sys.stop, W.Produce(OutcomeOf(entry)));
    assert t.sys.stop.regs[i].got == [OutcomeOf(entry)];
  }

  predicate NoStops(ops: seq<GoodOp>) {
    forall i | 0 <= i < |ops| :: !ops[i].SendStop?
  }

  /** Only a stop-like event ends the last wait. */
  lemma LastWaitStays(policy: Policy, h: Shake, op: GoodOp)
    requires SysFine(h.sys) && AtLastWait(h) && !op.SendStop? && GoodStep(policy, h, op).Some?
    ensures AtLastWait(GoodStep(policy, h, op).value)
  {
    if op.Chatter? { ChatterShape(h, op.message); }
  }

  lemma {:induction false} LastWaitGoesOn(policy: Policy, prog: seq<Instr>, ops: seq<GoodOp>, more: seq<GoodOp>)
    requires GoodRun(policy, prog, ops + more).Some? && GoodRun(policy, prog, ops).Some?
    requires AtLastWait(GoodRun(policy, prog, ops).value) && NoStops(more)
    ensures AtLastWait(GoodRun(policy, prog, ops + more).value)
    decreases |more|
  {
    if more == [] {
      assert ops + more == ops;
    } else {
      var shorter := more[..|more| - 1];
      assert (ops + more)[..|ops + more| - 1] == ops + shorter;
      LastWaitGoesOn(policy, prog, ops, shorter);
      LastWaitStays(policy, GoodRun(policy, prog, ops + shorter).value, more[|more| - 1]);
    }
  }

  /** On the way to a hang: the stop is sent before the registration, or not yet. */
  ghost predicate Hanging(h: Shake, entry: Event)
    requires StopLike(entry)
  {
    && h.prog == ATTACH_PROGRAM && ClosedGood(h) && h.result.None?
    && ((h.waiter.None? && Dispatches(h.obs) == []) || Dispatches(h.obs) == [OutcomeOf(entry)])
    && (h.waiter.Some? ==> AtLastWait(h))
  }

  lemma HangResult(t: Shake)
    requires t.prog == ATTACH_PROGRAM && ClosedGood(t) && t.waiter.None?
    ensures t.result.None?
  {
    assert ATTACH_PROGRAM[6] == RegisterWaiter;
  }

  /** Without the registration, steps that send no stop leave a program that has no waiter without one. */
  lemma WaiterByRegistration(policy: Policy, h: Shake, op: GoodOp)
    requires SysFine(h.sys) && h.waiter.None? && GoodStep(policy, h, op).Some?
    requires op.Run? ==> h.pc < |h.prog| && !h.prog[h.pc].RegisterWaiter?
    ensures GoodStep(policy, h, op).value.waiter.None?
  {
  }

  lemma RegistrationWaits(h: Shake)
    requires h.prog == ATTACH_PROGRAM && SysFine(h.sys) && h.result.None? && h.pc == 6
    ensures OwnStep(h, true).Some? && AtLastWait(OwnStep(h, true).value)
  {
    assert ATTACH_PROGRAM[6] == RegisterWaiter && ATTACH_PROGRAM[7] == AwaitStop;
  }

  /** The next step on the way to a hang. */
  lemma HangChoice(policy: Policy, h: Shake, entry: Event) returns (op: GoodOp)
    requires StopLike(entry) && h.prog == ATTACH_PROGRAM && ClosedGood(h) && h.result.None? && h.waiter.None?
    ensures GoodStep(policy, h, op).Some? && Productive(h, op) && (op.SendStop? ==> op.entry == entry)
    ensures var t := GoodStep(policy, h, op).value; t.waiter.None? || (AtLastWait(t) && op.Run? && Dispatches(h.obs) != [])
  {
    assert ATTACH_PROGRAM[6] == RegisterWaiter;
    if h.pc == 6 && h.sys.reader.Reading? {
      op := HangAtRegistration(policy, h, entry);
    } else if h.sys.reader.Handing? {
      op := HandOver;
      CanHandOver(policy, h);
      WaiterByRegistration(policy, h, op);
    } else {
      op := NeverStuck(policy, h);
      WaiterByRegistration(policy, h, op);
    }
  }

  lemma HangAtRegistration(policy: Policy, h: Shake, entry: Event) returns (op: GoodOp)
    requires StopLike(entry) && h.prog == ATTACH_PROGRAM && ProgGood(h) && SysFine(h.sys) && h.result.None? && h.waiter.None?
    requires h.pc == 6 && h.sys.reader.Reading?
    ensures GoodStep(policy, h, op).Some? && Productive(h, op) && (op.SendStop? ==> op.entry == entry)
    ensures var t := GoodStep(policy, h, op).value; t.waiter.None? || (AtLastWait(t) && op.Run? && Dispatches(h.obs) != [])
  {
    assert ATTACH_PROGRAM[4] == Send(ConfigurationDone, Unchecked);
    if Dispatches(h.obs) == [] {
      SentBefore(h.prog, 4, 6);
      op := SendStop(entry);
      AdapterCanAct(policy, h, op);
      WaiterByRegistration(policy, h, op);
    } else {
      op := Run;
      RegistrationWaits(h);
    }
  }

  lemma HangStep(policy: Policy, h: Shake, entry: Event) returns (op: GoodOp)
    requires StopLike(entry) && Hanging(h, entry) && h.waiter.None? && |h.sys.client.calls| < TWO64
    ensures GoodStep(policy, h, op).Some? && Productive(h, op) && Hanging(GoodStep(policy, h, op).value, entry)
  {
    op := HangChoice(policy, h, entry);
    GoodStepKeepsClosed(policy, h, op);
    StepDispatches(policy, h, op);
    HangKept(h, GoodStep(policy, h, op).value, op, entry);
  }

  lemma HangKept(h: Shake, t: Shake, op: GoodOp, entry: Event)
    requires StopLike(entry) && Hanging(h, entry) && h.waiter.None? && ClosedGood(t) && t.prog == h.prog
    requires t.waiter.None? || (AtLastWait(t) && op.Run? && Dispatches(h.obs) != [])
    requires op.SendStop? ==> op.entry == entry && Dispatches(h.obs) == []
    requires Dispatches(t.obs) == Dispatches(h.obs) + if op.SendStop? then [OutcomeOf(entry)] else []
    ensures Hanging(t, entry)
  {
    if t.waiter.None? { HangResult(t); }
  }

  lemma {:induction false} HangFrom(policy: Policy, ops: seq<GoodOp>, entry: Event) returns (all: seq<GoodOp>)
    requires StopLike(entry) && GoodRun(policy, ATTACH_PROGRAM, ops).Some?
    requires Hanging(GoodRun(policy, ATTACH_PROGRAM, ops).value, entry)
    ensures GoodRun(policy, ATTACH_PROGRAM, all).Some?
    ensures var h := GoodRun(policy, ATTACH_PROGRAM, all).value; AtLastWait(h) && Dispatches(h.obs) == [OutcomeOf(entry)]
    decreases StepBound(ATTACH_PROGRAM) - Effort(policy, ATTACH_PROGRAM, ops)
  {
    AttachShaped();
    GoodRunClosed(policy, ATTACH_PROGRAM, ops);
    var h := GoodRun(policy, ATTACH_PROGRAM, ops).value;
    all := ops;
    if h.waiter.None? {
      CompletedBound(h);
      var op := HangStep(policy, h, entry);
      RunGrows(policy, ATTACH_PROGRAM, ops, op);
      GoodRunClosed(policy, ATTACH_PROGRAM, ops + [op]);
      MeasureNonNegative(GoodRun(policy, ATTACH_PROGRAM, ops + [op]).value);
      all := HangFrom(policy, ops + [op], entry);
    }
  }

  /**
   * Attach can hang: under every policy and for every stop-like event there is a run in which the
   * adapter sends it in time, after `configurationDone`, but before attach registers; attach then
   * waits for good unless another one comes.
   */
  lemma AttachCanHang(policy: Policy, entry: Event) returns (ops: seq<GoodOp>)
    requires StopLike(entry)
    ensures GoodRun(policy, ATTACH_PROGRAM, ops).Some?
    ensures Dispatches(GoodRun(policy, ATTACH_PROGRAM, ops).value.obs) == [OutcomeOf(entry)]
    ensures forall more: seq<GoodOp> | GoodRun(policy, ATTACH_PROGRAM, ops + more).Some? && NoStops(more) ::
              AtLastWait(GoodRun(policy, ATTACH_PROGRAM, ops + more).value)
  {
    AttachShaped();
    BeginClosed(ATTACH_PROGRAM);
    ops := HangFrom(policy, [], entry);
    forall more: seq<GoodOp> | GoodRun(policy, ATTACH_PROGRAM, ops + more).Some? && NoStops(more)
      ensures AtLastWait(GoodRun(policy, ATTACH_PROGRAM, ops + more).value)
    {
      LastWaitGoesOn(policy, ATTACH_PROGRAM, ops, more);
    }
  }
}
