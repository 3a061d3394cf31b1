/** Which stop a launch, an attach or a resume reports. */
module EntryStops {
  import opened Types
  import opened Clients
  import opened ReadLoops
  import opened Handshakes
  import W = StopWaiters

  /** No stop-like event is dispatched before `configurationDone` has been written. */
  ghost predicate QuietBeforeConfigured(obs: seq<Obs>) {
    forall i | 0 <= i < |obs| && obs[i].Dispatched? :: Wrote(ConfigurationDone) in obs[..i]
  }

  /** The program registers its stop waiter before it sends `configurationDone`. */
  predicate RegistersFirst(prog: seq<Instr>) {
    forall j | 0 <= j < |prog| && prog[j].Send? && prog[j].cmd.ConfigurationDone? ::
      exists i :: 0 <= i < j && prog[i].RegisterWaiter?
  }

  lemma {:induction false} FrameSource(prog: seq<Instr>, pc: nat, cmd: Command)
    requires pc <= |prog| && cmd in Commands(prog[..pc])
    ensures exists j :: 0 <= j < pc && (prog[j].Send? || prog[j].SendAsync?) && prog[j].cmd == cmd
  {
    if pc > 0 {
      CommandsExtend(prog, pc - 1);
      if cmd in Commands(prog[..pc - 1]) { FrameSource(prog, pc - 1, cmd); }
    }
  }

  lemma {:induction false} WroteInFrames(obs: seq<Obs>, i: nat)
    requires i < |obs| && obs[i].Wrote?
    ensures obs[i].cmd in Frames(obs)
  {
    if i < |obs| - 1 {
      WroteInFrames(obs[..|obs| - 1], i);
    }
  }

  lemma {:induction false} NothingDispatched(obs: seq<Obs>)
    requires forall i | 0 <= i < |obs| :: !obs[i].Dispatched?
    requires W.Registers(StopOps(obs)) == 0
    ensures StopOps(obs) == []
  {
    if obs != [] {
      var before := StopOps(obs[..|obs| - 1]);
      assert before + [] == before;
      assert StopOps(obs)[..|before|] == before;
      NothingDispatched(obs[..|obs| - 1]);
    }
  }

  /** Until the waiter is registered, `configurationDone` is not out. */
  lemma {:induction false} NotYetConfigured(h: Shake)
    requires ProgGood(h) && h.waiter.None? && RegistersFirst(h.prog)
    requires forall j | 0 <= j < |h.prog| && h.prog[j].SendAsync? :: !h.prog[j].cmd.ConfigurationDone?
    ensures Wrote(ConfigurationDone) !in h.obs
  {
    if Wrote(ConfigurationDone) in h.obs {
      var i :| 0 <= i < |h.obs| && h.obs[i] == Wrote(ConfigurationDone);
      WroteInFrames(h.obs, i);
      var n := if h.cursor.InCall? && h.cursor.written && h.pc < |h.prog| then h.pc + 1 else h.pc;
      if n > h.pc { CommandsExtend(h.prog, h.pc); }
      assert ConfigurationDone in Commands(h.prog[..n]);
      FrameSource(h.prog, n, ConfigurationDone);
    }
  }

  /** While only this program registers waiters, its registration opens the stop log. */
  ghost predicate OpensLog(h: Shake) {
    QuietBeforeConfigured(h.obs) && h.waiter.Some? && |h.sys.stop.regs| == 1 ==>
      h.sys.stopLog != [] && h.sys.stopLog[0] == W.Register
  }

  ghost predicate Extends(h: Shake, t: Shake) {
    && h.obs <= t.obs && h.sys.stopLog <= t.sys.stopLog
    && |h.sys.stop.regs| <= |t.sys.stop.regs|
    && (t.waiter == h.waiter
        || (t.sys.stopLog == h.sys.stopLog + [W.Register] && |t.sys.stop.regs| == |h.sys.stop.regs| + 1))
  }

  lemma ViaExtends(h: Shake, op: SysOp)
    requires SysFine(h.sys) && SysEnabled(h.sys, op)
    ensures Extends(h, Via(h, op)) && Via(h, op).waiter == h.waiter
  {
  }

  lemma CallExtends(h: Shake, k: nat, cmd: Command, writes: bool)
    requires SysFine(h.sys) && CallStep(h, k, cmd, writes).Some?
    ensures Extends(h, CallStep(h, k, cmd, writes).value)
  {
    if Enabled(h.sys.client, Register(k)) {
      ViaExtends(h, Caller(Register(k)));
    } else {
      ViaExtends(h, Caller(if writes then WriteOk(k) else WriteFail(k)));
    }
  }

  lemma SendExtends(h: Shake, writes: bool)
    requires SysFine(h.sys) && OwnStep(h, writes).Some? && h.pc < |h.prog| && (h.prog[h.pc].Send? || h.prog[h.pc].SendAsync?)
    ensures Extends(h, OwnStep(h, writes).value)
  {
    if h.cursor.Between? {
      ViaExtends(h, Caller(NextSeq(h.prog[h.pc].Send?)));
    } else if !h.cursor.written {
      CallExtends(h, h.cursor.k, h.prog[h.pc].cmd, writes);
    } else if h.prog[h.pc].Send? {
      ViaExtends(h, Caller(Await(h.cursor.k)));
    }
  }

  lemma OwnExtends(h: Shake, writes: bool)
    requires SysFine(h.sys) && OwnStep(h, writes).Some?
    ensures Extends(h, OwnStep(h, writes).value)
  {
    if h.pc < |h.prog| {
      match h.prog[h.pc]
      case Send(_, _) => SendExtends(h, writes);
      case SendAsync(_) => SendExtends(h, writes);
      case WaitInit => if h.cursor.Between? && !h.sys.latch.fired { ViaExtends(h, Park); }
      case RegisterWaiter => ViaExtends(h, RegisterStop);
      case AwaitAsync => ViaExtends(h, Caller(Await(h.async.value)));
      case AwaitStop =>
    }
  }

  lemma HStepExtends(h: Shake, op: HOp)
    requires SysFine(h.sys) && HStep(h, op).Some?
    ensures Extends(h, HStep(h, op).value)
  {
    match op
    case Own(writes) => OwnExtends(h, writes);
    case Env(o) => ViaExtends(h, o);
    case Cancel => if h.cursor.InCall? { ViaExtends(h, Caller(Drop(h.cursor.k))); }
  }

  /** A program that registers first, and sends `configurationDone` only as a plain request. */
  predicate Careful(prog: seq<Instr>) {
    && RegistersFirst(prog)
    && forall j | 0 <= j < |prog| && prog[j].SendAsync? :: !prog[j].cmd.ConfigurationDone?
  }

  lemma QuietShrinks(obs: seq<Obs>, longer: seq<Obs>)
    requires obs <= longer && QuietBeforeConfigured(longer)
    ensures QuietBeforeConfigured(obs)
  {
    forall i | 0 <= i < |obs| && obs[i].Dispatched? ensures Wrote(ConfigurationDone) in obs[..i] {
      assert longer[i] == obs[i] && longer[..i] == obs[..i];
    }
  }

  lemma StepOpensLog(h: Shake, t: Shake)
    requires ProgGood(h) && Careful(h.prog) && OpensLog(h) && Extends(h, t)
    requires |h.sys.stop.regs| == W.Registers(h.sys.stopLog)
    ensures OpensLog(t)
  {
    if QuietBeforeConfigured(t.obs) && t.waiter.Some? && |t.sys.stop.regs| == 1 {
      QuietShrinks(h.obs, t.obs);
      if h.waiter.None? {
        NotYetConfigured(h);
        assert forall i | 0 <= i < |h.obs| :: Wrote(ConfigurationDone) !in h.obs[..i];
        NothingDispatched(h.obs);
      }
    }
  }

  lemma {:induction false} RunOpensLog(prog: seq<Instr>, ops: seq<HOp>)
    requires Careful(prog)
    requires HRun(prog, ops).Some? && |HRun(prog, ops).value.sys.client.calls| <= TWO64
    ensures OpensLog(HRun(prog, ops).value)
  {
    if ops != [] {
      var h := HRun(prog, ops[..|ops| - 1]).value;
      var op := ops[|ops| - 1];
      HStepGrows(h, op);
      HRunGood(prog, ops[..|ops| - 1]);
      RunOpensLog(prog, ops[..|ops| - 1]);
      HStepExtends(h, op);
      StepOpensLog(h, HStep(h, op).value);
    }
  }

  lemma {:induction false} DispatchesOfLog(obs: seq<Obs>, i: nat)
    requires i < |StopOps(obs)| && StopOps(obs)[i].Produce?
    requires forall j | 0 <= j < i :: StopOps(obs)[j].Register?
    ensures Dispatches(obs) != [] && Dispatches(obs)[0] == StopOps(obs)[i].outcome
    decreases |obs|
  {
    var shorter := obs[..|obs| - 1];
    if i < |StopOps(shorter)| {
      assert forall j | 0 <= j <= i :: StopOps(shorter)[j] == StopOps(obs)[j];
      DispatchesOfLog(shorter, i);
    } else {
      assert forall j | 0 <= j < |StopOps(shorter)| :: StopOps(shorter)[j] == StopOps(obs)[j];
      OnlyRegistrations(shorter);
    }
  }

  lemma {:induction false} OnlyRegistrations(obs: seq<Obs>)
    requires forall j | 0 <= j < |StopOps(obs)| :: StopOps(obs)[j].Register?
    ensures Dispatches(obs) == []
  {
    if Dispatches(obs) != [] {
      var j := DispatchIsLogged(obs);
    }
  }

  lemma {:induction false} DispatchIsLogged(obs: seq<Obs>) returns (j: nat)
    requires Dispatches(obs) != []
    ensures j < |StopOps(obs)| && StopOps(obs)[j].Produce?
  {
    var shorter := obs[..|obs| - 1];
    if Dispatches(shorter) == [] {
      j := |StopOps(shorter)|;
    } else {
      j := DispatchIsLogged(shorter);
    }
  }

  lemma {:induction false} FirstRegistration(log: seq<W.Op>)
    requires log != [] && log[0] == W.Register
    ensures W.Registers(log) > 0
    ensures W.PositionOf(log, 0) == 0
  {
    assert log[..1][..0] == [];
    assert W.Registers(log[..1]) == 1;
    PrefixPosition(log, 1, 0);
  }

  lemma {:induction false} SoloWindow(log: seq<W.Op>)
    requires log != [] && log[0] == W.Register && W.Registers(log) == 1
    ensures W.PositionOf(log, 0) == 0
    ensures |log| > 1 ==> log[1].Produce?
  {
    FirstRegistration(log);
    if |log| > 1 {
      assert log[..2][..1] == log[..1] && log[..1][..0] == [];
      RegistersMonotone(log, 2);
    }
  }

  lemma {:induction false} RegistersMonotone(log: seq<W.Op>, n: nat)
    requires n <= |log|
    ensures W.Registers(log[..n]) <= W.Registers(log)
    decreases |log| - n
  {
    if n == |log| {
      assert log[..n] == log;
    } else {
      assert log[..n + 1][..n] == log[..n];
      RegistersMonotone(log, n + 1);
    }
  }

  /**
   * Whatever the program, the outcome it reports is the first stop-like event dispatched
   * after its own registration and before the next one. At its wait it reports that event if
   * there is one, a lost waiter if another registration came first, and else stays blocked.
   */
  lemma {:induction false} ReportsFirstAfterRegistration(prog: seq<Instr>, ops: seq<HOp>)
    requires HRun(prog, ops).Some? && |HRun(prog, ops).value.sys.client.calls| <= TWO64
    ensures var h := HRun(prog, ops).value;
            && (forall o :: h.result == Some(Done(Some(o))) ==>
                  h.waiter.Some? && W.FateOf(h.sys.stopLog, h.waiter.value) == W.Got(o))
            && (h.result == Some(Lost) ==>
                  h.waiter.Some? && W.FateOf(h.sys.stopLog, h.waiter.value) == W.Orphaned)
            && h.sys.stopLog == StopOps(h.obs)
            && (AtStop(h) ==>
                  var fate := W.FateOf(h.sys.stopLog, h.waiter.value);
                  OwnStep(h, true) == match fate
                                      case Got(o) => Some(h.(result := Some(Done(Some(o)))))
                                      case Orphaned => Some(h.(result := Some(Lost)))
                                      case _ => None)
  {
    HRunGood(prog, ops);
    var h := HRun(prog, ops).value;
    if AtStop(h) {
      assert W.Observed(h.sys.stop, h.waiter.value) == W.FateOf(h.sys.stopLog, h.waiter.value);
    }
  }

  /** The program awaits its stop. */
  predicate AtStop(h: Shake) {
    h.result.None? && h.pc < |h.prog| && h.prog[h.pc].AwaitStop? && h.waiter.Some?
  }

  lemma LaunchIsCareful(spec: LaunchSpec)
    requires spec.stopOnEntry
    ensures Careful(LaunchProgram(spec))
  {
    var prog := LaunchProgram(spec);
    var n := |prog| - 5;
    assert prog[n..] == LaunchTail(true);
    assert prog[n + 1] == RegisterWaiter;
    forall j | 0 <= j < |prog| && prog[j].Send? && prog[j].cmd.ConfigurationDone?
      ensures exists i :: 0 <= i < j && prog[i].RegisterWaiter?
    {
      assert n + 1 < j;
    }
  }

  /**
   * Launch never loses the entry stop. In every interleaving in which no stop-like event is
   * dispatched before `configurationDone` is written and nobody else registers a waiter, a
   * stop-on-entry launch that succeeds reports exactly the first such event (an end of the
   * stream counts as terminated).
   */
  lemma {:induction false} LaunchReportsEntryStop(spec: LaunchSpec, ops: seq<HOp>)
    requires spec.stopOnEntry && HRun(LaunchProgram(spec), ops).Some?
    requires var h := HRun(LaunchProgram(spec), ops).value;
             && |h.sys.client.calls| <= TWO64
             && |h.sys.stop.regs| == 1 && QuietBeforeConfigured(h.obs)
             && h.result.Some? && LaunchResult(h.result.value).Some?
    ensures var h := HRun(LaunchProgram(spec), ops).value;
            && Dispatches(h.obs) != []
            && h.result == Some(Done(Some(Dispatches(h.obs)[0])))
  {
    var prog := LaunchProgram(spec);
    var h := HRun(prog, ops).value;
    LaunchIsCareful(spec);
    HRunGood(prog, ops);
    RunOpensLog(prog, ops);
    LaunchEndsWaiting(spec, h);
    SoloFate(h);
  }

  lemma LaunchEndsWaiting(spec: LaunchSpec, h: Shake)
    requires spec.stopOnEntry && h.prog == LaunchProgram(spec) && ProgGood(h)
    ensures h.result != Some(Done(None))
  {
    assert h.prog[|h.prog| - 1] == LaunchTail(true)[4];
  }

  /** A lone registration that opens the log is never orphaned. */
  lemma {:induction false} SoloFate(h: Shake)
    requires ProgGood(h) && W.Meets(h.sys.stop, h.sys.stopLog) && |h.sys.stop.regs| == 1
    requires h.waiter.Some? ==> h.sys.stopLog != [] && h.sys.stopLog[0] == W.Register
    requires h.result.Some? && LaunchResult(h.result.value).Some? && h.result != Some(Done(None))
    ensures Dispatches(h.obs) != [] && h.result == Some(Done(Some(Dispatches(h.obs)[0])))
  {
    var log := h.sys.stopLog;
    assert h.waiter == Some(0);
    SoloWindow(log);
    assert W.Observed(h.sys.stop, 0) == W.Window(log, 1);
    DispatchesOfLog(h.obs, 1);
  }

  /** A program at its wait is blocked iff its registration is the last call on the waiter. */
  lemma {:induction false} BlockedIffLast(h: Shake)
    requires ProgGood(h) && SysFine(h.sys) && W.Meets(h.sys.stop, h.sys.stopLog) && AtStop(h)
    ensures h.waiter.value < W.Registers(h.sys.stopLog)
    ensures W.PositionOf(h.sys.stopLog, h.waiter.value) + 1 == |h.sys.stopLog| <==> OwnStep(h, true).None?
  {
    assert W.Observed(h.sys.stop, h.waiter.value) == W.FateOf(h.sys.stopLog, h.waiter.value);
  }

  /**
   * Attach registers late, so the placement matters: however many stops were dispatched before
   * its registration, it stays blocked until the waiter is called again.
   */
  lemma {:induction false} AttachMissesEarlierStops(ops: seq<HOp>)
    requires HRun(ATTACH_PROGRAM, ops).Some?
    requires var h := HRun(ATTACH_PROGRAM, ops).value;
             && |h.sys.client.calls| <= TWO64
             && h.result.None? && h.pc < |ATTACH_PROGRAM| && ATTACH_PROGRAM[h.pc] == AwaitStop
    ensures var h := HRun(ATTACH_PROGRAM, ops).value;
            && h.waiter.Some? && h.waiter.value < W.Registers(h.sys.stopLog)
            && (W.PositionOf(h.sys.stopLog, h.waiter.value) + 1 == |h.sys.stopLog| <==> OwnStep(h, true).None?)
  {
    HRunGood(ATTACH_PROGRAM, ops);
    AttachHasWaiter(HRun(ATTACH_PROGRAM, ops).value);
    BlockedIffLast(HRun(ATTACH_PROGRAM, ops).value);
  }

  lemma AttachHasWaiter(h: Shake)
    requires h.prog == ATTACH_PROGRAM && ProgGood(h) && h.pc < |ATTACH_PROGRAM| && ATTACH_PROGRAM[h.pc] == AwaitStop
    ensures h.waiter.Some?
  {
    assert ATTACH_PROGRAM[6] == RegisterWaiter;
  }

  /**
   * A resume registers before it sends: once its request is out the waiter is in place, and at
   * its wait it is blocked iff nothing was called on the waiter since.
   */
  lemma {:induction false} ResumeMissesNothing(ops: seq<HOp>)
    requires HRun(RESUME_PROGRAM, ops).Some? && |HRun(RESUME_PROGRAM, ops).value.sys.client.calls| <= TWO64
    ensures var h := HRun(RESUME_PROGRAM, ops).value;
            && (Frames(h.obs) != [] ==> h.waiter.Some?)
            && (AtStop(h) ==>
                  && h.waiter.value < W.Registers(h.sys.stopLog)
                  && (W.PositionOf(h.sys.stopLog, h.waiter.value) + 1 == |h.sys.stopLog| <==> OwnStep(h, true).None?))
  {
    HRunGood(RESUME_PROGRAM, ops);
    var h := HRun(RESUME_PROGRAM, ops).value;
    assert RESUME_PROGRAM[0] == RegisterWaiter;
    if h.pc == 0 { assert h.prog[..0] == []; }
    if AtStop(h) { BlockedIffLast(h); }
  }
}
