/** What the end of the stream leaves of a handshake or a resume. */
module Crashes {
  import opened Types
  import opened Clients
  import opened ReadLoops
  import opened Handshakes
  import opened EntryStops
  import opened LaunchProgress
  import opened DisplacedWaits
  import W = StopWaiters

  /** What is awaited was begun before, and the asynchronous response is awaited once. */
  predicate Ordered(prog: seq<Instr>) {
    && (forall j | 0 <= j < |prog| && prog[j].AwaitAsync? :: exists i :: 0 <= i < j && prog[i].SendAsync?)
    && (forall j | 0 <= j < |prog| && prog[j].AwaitStop? :: exists i :: 0 <= i < j && prog[i].RegisterWaiter?)
    && (forall i, j | 0 <= i < j < |prog| :: !(prog[i].AwaitAsync? && prog[j].AwaitAsync?))
  }

  lemma ShapedIsOrdered(prog: seq<Instr>)
    requires Shaped(prog)
    ensures Ordered(prog)
  {
    assert prog[1].SendAsync?;
  }

  lemma ProgramsAreOrdered(spec: LaunchSpec)
    ensures Ordered(LaunchProgram(spec)) && Ordered(ATTACH_PROGRAM) && Ordered(RESUME_PROGRAM)
  {
    LaunchShaped(spec);
    ShapedIsOrdered(LaunchProgram(spec));
    AttachShaped();
    ShapedIsOrdered(ATTACH_PROGRAM);
    assert RESUME_PROGRAM[0] == RegisterWaiter;
  }

  // ----- the asynchronous call

  predicate NoneBefore(prog: seq<Instr>, pc: nat)
    requires pc <= |prog|
  {
    forall j | 0 <= j < pc :: !prog[j].AwaitAsync?
  }

  ghost predicate AsyncGood(h: Shake)
    requires h.pc <= |h.prog|
  {
    && (h.async.None? ==> forall j | 0 <= j < h.pc :: !h.prog[j].SendAsync?)
    && (h.async.Some? ==>
          && h.async.value in h.own && h.async.value < |h.sys.client.calls|
          && (h.result.None? && NoneBefore(h.prog, h.pc) ==> h.sys.client.calls[h.async.value].phase.Written?))
    && (h.cursor.InCall? ==> h.async != Some(h.cursor.k))
  }

  lemma EnvKeepsAsync(h: Shake, op: SysOp)
    requires ProgGood(h) && SysFine(h.sys) && AsyncGood(h) && SysEnabled(h.sys, op) && Foreign(h.own, op)
    ensures AsyncGood(Via(h, op))
  {
    if h.async.Some? { ForeignKeepsPhase(h.sys, op, h.own, h.async.value); }
  }

  /** Steps in one's own current call leave the others' phases alone. */
  lemma CallKeepsOthers(s: System, op: Op, k: nat)
    requires SysFine(s) && SysEnabled(s, Caller(op)) && k < |s.client.calls|
    requires op.NextSeq? || ((op.Register? || op.WriteOk? || op.WriteFail? || op.Await? || op.Drop?) && op.k != k)
    ensures var d := SysStep(s, Caller(op)).client; k < |d.calls| && d.calls[k].phase == s.client.calls[k].phase
  {
  }

  lemma SendKeepsAsync(h: Shake, writes: bool)
    requires ProgGood(h) && SysFine(h.sys) && AsyncGood(h) && OwnStep(h, writes).Some?
    requires h.pc < |h.prog| && (h.prog[h.pc].Send? || h.prog[h.pc].SendAsync?)
    ensures AsyncGood(OwnStep(h, writes).value)
  {
    if h.cursor.Between? {
      StartKeepsAsync(h, h.prog[h.pc].Send?);
    } else if !h.cursor.written {
      WriteKeepsAsync(h, writes);
    } else if h.prog[h.pc].Send? && h.async.Some? {
      CallKeepsOthers(h.sys, Await(h.cursor.k), h.async.value);
    }
  }

  lemma StartKeepsAsync(h: Shake, guarded: bool)
    requires ProgGood(h) && SysFine(h.sys) && AsyncGood(h)
    ensures AsyncGood(StartCall(h, guarded))
  {
    if h.async.Some? { CallKeepsOthers(h.sys, NextSeq(guarded), h.async.value); }
  }

  lemma WriteKeepsAsync(h: Shake, writes: bool)
    requires ProgGood(h) && SysFine(h.sys) && AsyncGood(h) && h.pc < |h.prog| && h.cursor.InCall? && h.result.None?
    requires CallStep(h, h.cursor.k, h.prog[h.pc].cmd, writes).Some?
    ensures AsyncGood(CallStep(h, h.cursor.k, h.prog[h.pc].cmd, writes).value)
  {
    if h.async.Some? {
      var k := h.async.value;
      if Enabled(h.sys.client, Register(h.cursor.k)) {
        CallKeepsOthers(h.sys, Register(h.cursor.k), k);
      } else {
        CallKeepsOthers(h.sys, if writes then WriteOk(h.cursor.k) else WriteFail(h.cursor.k), k);
      }
    }
  }

  lemma OwnKeepsAsync(h: Shake, writes: bool)
    requires ProgGood(h) && SysFine(h.sys) && AsyncGood(h) && OwnStep(h, writes).Some?
    ensures AsyncGood(OwnStep(h, writes).value)
  {
    if h.pc < |h.prog| {
      match h.prog[h.pc]
      case Send(_, _) => SendKeepsAsync(h, writes);
      case SendAsync(_) => SendKeepsAsync(h, writes);
      case WaitInit => GateKeepsAsync(h, writes);
      case RegisterWaiter => WaiterKeepsAsync(h, writes);
      case AwaitAsync => ResponseKeepsAsync(h, writes);
      case AwaitStop =>
    }
  }

  lemma GateKeepsAsync(h: Shake, writes: bool)
    requires ProgGood(h) && SysFine(h.sys) && AsyncGood(h) && OwnStep(h, writes).Some? && h.pc < |h.prog| && h.prog[h.pc].WaitInit?
    ensures AsyncGood(OwnStep(h, writes).value)
  {
  }

  lemma WaiterKeepsAsync(h: Shake, writes: bool)
    requires ProgGood(h) && SysFine(h.sys) && AsyncGood(h) && OwnStep(h, writes).Some? && h.pc < |h.prog| && h.prog[h.pc].RegisterWaiter?
    ensures AsyncGood(OwnStep(h, writes).value)
  {
  }

  lemma ResponseKeepsAsync(h: Shake, writes: bool)
    requires ProgGood(h) && SysFine(h.sys) && AsyncGood(h) && OwnStep(h, writes).Some? && h.pc < |h.prog| && h.prog[h.pc].AwaitAsync?
    ensures AsyncGood(OwnStep(h, writes).value)
  {
  }

  lemma CancelKeepsAsync(h: Shake)
    requires ProgGood(h) && SysFine(h.sys) && AsyncGood(h) && HStep(h, Cancel).Some?
    ensures AsyncGood(HStep(h, Cancel).value)
  {
  }

  lemma {:induction false} RunKeepsAsync(prog: seq<Instr>, ops: seq<HOp>)
    requires HRun(prog, ops).Some? && |HRun(prog, ops).value.sys.client.calls| <= TWO64
    ensures HGood(HRun(prog, ops).value) && HRun(prog, ops).value.prog == prog && AsyncGood(HRun(prog, ops).value)
  {
    HRunGood(prog, ops);
    if ops != [] {
      var h, op := HRun(prog, ops[..|ops| - 1]).value, ops[|ops| - 1];
      HStepGrows(h, op);
      RunKeepsAsync(prog, ops[..|ops| - 1]);
      match op
      case Own(writes) => OwnKeepsAsync(h, writes);
      case Env(e) => EnvKeepsAsync(h, e);
      case Cancel => CancelKeepsAsync(h);
    }
  }

  // ----- what blocks a program

  /** The call whose response the program awaits. */
  function AwaitedCall(h: Shake): Option<nat> {
    if h.result.Some? || h.pc >= |h.prog| then None
    else if h.prog[h.pc].Send? && h.cursor.InCall? && h.cursor.written then Some(h.cursor.k)
    else if h.prog[h.pc].AwaitAsync? then h.async
    else None
  }

  predicate AtGate(h: Shake) {
    h.result.None? && h.pc < |h.prog| && h.prog[h.pc].WaitInit? && h.cursor.Parked?
  }

  lemma AwaitedIsWritten(h: Shake)
    requires ProgGood(h) && AsyncGood(h) && Ordered(h.prog) && AwaitedCall(h).Some?
    ensures AwaitedCall(h).value < |h.sys.client.calls| && h.sys.client.calls[AwaitedCall(h).value].phase.Written?
  {
  }

  lemma BeganBefore(h: Shake)
    requires ProgGood(h) && AsyncGood(h) && Ordered(h.prog) && h.result.None? && h.pc < |h.prog|
    ensures h.prog[h.pc].AwaitAsync? ==> h.async.Some?
    ensures h.prog[h.pc].AwaitStop? ==> h.waiter.Some?
  {
  }

  /** A program without a result is blocked at its gate, in a call or at its stop, or not at all. */
  lemma BlockedCases(h: Shake)
    requires ProgGood(h) && SysFine(h.sys) && AsyncGood(h) && Ordered(h.prog) && h.result.None?
    ensures OwnStep(h, true).None? <==>
              || (AtGate(h) && !h.sys.latch.Resolved(h.cursor.p))
              || (AwaitedCall(h).Some? && !Enabled(h.sys.client, Await(AwaitedCall(h).value)))
              || (AtStop(h) && W.Observed(h.sys.stop, h.waiter.value) == W.Waiting)
  {
    if h.pc < |h.prog| {
      BeganBefore(h);
      if h.prog[h.pc].Send? && h.cursor.InCall? && !h.cursor.written { CallCanStep(h); }
      if h.prog[h.pc].SendAsync? && h.cursor.InCall? && !h.cursor.written { CallCanStep(h); }
      if h.prog[h.pc].AwaitStop? { ObservedKnown(h); }
    }
  }

  lemma CallCanStep(h: Shake)
    requires ProgGood(h) && SysFine(h.sys) && h.result.None? && h.pc < |h.prog| && h.cursor.InCall? && !h.cursor.written
    ensures CallStep(h, h.cursor.k, h.prog[h.pc].cmd, true).Some?
  {
  }

  lemma ObservedKnown(h: Shake)
    requires ProgGood(h) && h.waiter.Some?
    ensures W.Observed(h.sys.stop, h.waiter.value) != W.Unregistered
  {
  }

  // ----- after recovery

  /** The wait for `initialized`, parked last, with the event never read. */
  ghost predicate LeftAtGate(h: Shake) {
    AtGate(h) && EventMessage(Initialized) !in h.sys.read && h.cursor.p + 1 == h.sys.latch.parks
  }

  /** A request that was registered only after recovery drained the map. */
  ghost predicate LeftInCall(h: Shake) {
    && AwaitedCall(h).Some? && h.sys.atDrain.Some?
    && !RegisteredIn(h.sys.atDrain.value, AwaitedCall(h).value) && InPending(h.sys.client, AwaitedCall(h).value)
  }

  /** A stop waiter that was registered only after recovery cancelled, and last. */
  ghost predicate LeftAtStop(h: Shake) {
    && AtStop(h) && h.sys.atCancel.Some? && h.waiter.value < W.Registers(h.sys.stopLog)
    && h.sys.atCancel.value < W.PositionOf(h.sys.stopLog, h.waiter.value) == |h.sys.stopLog| - 1
  }

  lemma GateAfterCrash(h: Shake)
    requires ProgGood(h) && LatchGood(h.sys.latch) && AtGate(h)
    requires h.sys.latch.fired <==> EventMessage(Initialized) in h.sys.read
    ensures !h.sys.latch.Resolved(h.cursor.p) <==> LeftAtGate(h)
  {
  }

  lemma CallAfterCrash(h: Shake)
    requires ProgGood(h) && AsyncGood(h) && Ordered(h.prog) && AwaitedCall(h).Some?
    requires Good(h.sys.client) && RecoveryGood(h.sys) && h.sys.reader.Finished?
    ensures !Enabled(h.sys.client, Await(AwaitedCall(h).value)) <==> LeftInCall(h)
  {
    AwaitedIsWritten(h);
    var k := AwaitedCall(h).value;
    assert CallGood(h.sys.client, k);
    if InPending(h.sys.client, k) { assert EntryGood(h.sys.client, SeqOf(k)); }
  }

  /** A registration made before the cancel is not waiting any more. */
  lemma {:induction false} EarlierRegistrationDone(log: seq<W.Op>, n: nat, i: nat)
    requires n < |log| && log[n].Produce? && i < W.Registers(log) && W.PositionOf(log, i) < n
    ensures W.FateOf(log, i) != W.Waiting
  {
  }

  lemma StopAfterCrash(h: Shake)
    requires ProgGood(h) && AtStop(h) && W.Meets(h.sys.stop, h.sys.stopLog)
    requires RecoveryGood(h.sys) && h.sys.reader.Finished?
    ensures W.Observed(h.sys.stop, h.waiter.value) == W.Waiting <==> LeftAtStop(h)
  {
    var log, i, n := h.sys.stopLog, h.waiter.value, h.sys.atCancel.value;
    assert W.Observed(h.sys.stop, i) == W.FateOf(log, i);
    if W.PositionOf(log, i) < n { EarlierRegistrationDone(log, n, i); }
  }

  /**
   * Over every run: once recovery is over, a launch, attach or resume without a result is blocked
   * if and only if it waits for an `initialized` that never came and nobody waits behind it, or for
   * a request registered after the drain, or for a stop registered after the cancel and last.
   */
  lemma {:induction false} CrashBlocksIff(prog: seq<Instr>, ops: seq<HOp>)
    requires Ordered(prog) && HRun(prog, ops).Some? && |HRun(prog, ops).value.sys.client.calls| <= TWO64
    requires HRun(prog, ops).value.sys.reader.Finished? && HRun(prog, ops).value.result.None?
    ensures var h := HRun(prog, ops).value;
            OwnStep(h, true).None? <==> LeftAtGate(h) || LeftInCall(h) || LeftAtStop(h)
  {
    RunKeepsAsync(prog, ops);
    RunKeepsLatch(prog, ops);
    BlockedAfterCrash(HRun(prog, ops).value);
  }

  lemma BlockedAfterCrash(h: Shake)
    requires HGood(h) && AsyncGood(h) && Ordered(h.prog) && LatchGood(h.sys.latch)
    requires h.sys.reader.Finished? && h.result.None?
    ensures OwnStep(h, true).None? <==> LeftAtGate(h) || LeftInCall(h) || LeftAtStop(h)
  {
    BlockedCases(h);
    if AtGate(h) { GateAfterCrash(h); }
    if AwaitedCall(h).Some? { CallAfterCrash(h); }
    if AtStop(h) { StopAfterCrash(h); }
  }

  // ----- a launch that the crash leaves waiting

  /** The keys of the pending map, in the order of their calls. */
  function KeysTo(c: Client, n: nat): seq<int> {
    if n == 0 then []
    else KeysTo(c, n - 1) + if InPending(c, n - 1) then [SeqOf(n - 1)] else []
  }

  lemma {:induction false} KeysListed(c: Client, n: nat)
    requires n <= |c.calls| <= TWO64
    ensures forall q | q in KeysTo(c, n) :: q in c.pending && c.pending[q] < n
    ensures forall j | 0 <= j < n && InPending(c, j) :: SeqOf(j) in KeysTo(c, n)
    ensures forall i, j | 0 <= i < j < |KeysTo(c, n)| :: KeysTo(c, n)[i] != KeysTo(c, n)[j]
  {
    if n > 0 {
      KeysListed(c, n - 1);
      var keys := KeysTo(c, n - 1);
      assert forall i | 0 <= i < |keys| :: keys[i] in keys;
    }
  }

  lemma KeysAreListed(c: Client)
    requires Good(c) && |c.calls| <= TWO64
    ensures ListsKeys(KeysTo(c, |c.calls|), c.pending)
  {
    KeysListed(c, |c.calls|);
    forall q | q in c.pending ensures q in KeysTo(c, |c.calls|) {
      assert EntryGood(c, q) && InPending(c, c.pending[q]);
    }
  }

  /** The program is parked at its gate and the event has not come. */
  ghost predicate AtClosedGate(h: Shake) {
    AtGate(h) && !h.sys.latch.fired && h.sys.latch.parked == Some(h.cursor.p) && |h.sys.client.calls| <= TWO64
  }

  predicate IsRecovery(op: SysOp) {
    op.Hand? || op.ReadError? || op.DrainAll? || op.CancelStop? || op.FireTerminated?
  }

  lemma RecoveryKeepsGate(h: Shake, op: SysOp)
    requires SysFine(h.sys) && AtClosedGate(h) && SysEnabled(h.sys, op) && IsRecovery(op)
    ensures HStep(h, Env(op)) == Some(Via(h, op)) && AtClosedGate(Via(h, op))
  {
  }

  /** One more step of the reader, with the program at its gate throughout. */
  lemma ReaderStep(prog: seq<Instr>, ops: seq<HOp>, op: SysOp) returns (all: seq<HOp>)
    requires HRun(prog, ops).Some? && AtClosedGate(HRun(prog, ops).value)
    requires SysEnabled(HRun(prog, ops).value.sys, op) && IsRecovery(op)
    ensures HRun(prog, all).Some? && AtClosedGate(HRun(prog, all).value)
    ensures HRun(prog, all).value.sys == SysStep(HRun(prog, ops).value.sys, op)
  {
    RunOn(prog, ops, Env(op));
    RecoveryKeepsGate(HRun(prog, ops).value, op);
    all := ops + [Env(op)];
  }

  lemma {:induction false} HandsOver(prog: seq<Instr>, ops: seq<HOp>) returns (all: seq<HOp>)
    requires HRun(prog, ops).Some? && AtClosedGate(HRun(prog, ops).value) && HRun(prog, ops).value.sys.reader.Failing?
    ensures HRun(prog, all).Some? && AtClosedGate(HRun(prog, all).value)
    ensures HRun(prog, all).value.sys.reader.Failing? && HRun(prog, all).value.sys.client.taken == []
    decreases |HRun(prog, ops).value.sys.client.taken|
  {
    all := ops;
    if HRun(prog, ops).value.sys.client.taken != [] {
      HandShrinks(HRun(prog, ops).value.sys);
      all := ReaderStep(prog, ops, Hand);
      all := HandsOver(prog, all);
    }
  }

  lemma HandShrinks(s: System)
    requires SysFine(s) && s.reader.Failing? && s.client.taken != []
    ensures SysEnabled(s, Hand)
    ensures SysStep(s, Hand).reader.Failing? && |SysStep(s, Hand).client.taken| == |s.client.taken| - 1
  {
  }

  lemma BackToReading(prog: seq<Instr>, ops: seq<HOp>) returns (all: seq<HOp>)
    requires HRun(prog, ops).Some? && AtClosedGate(HRun(prog, ops).value)
    requires HRun(prog, ops).value.sys.reader.Reading? || HRun(prog, ops).value.sys.reader.Handing?
    ensures HRun(prog, all).Some? && AtClosedGate(HRun(prog, all).value) && HRun(prog, all).value.sys.reader.Reading?
  {
    all := ops;
    HRunGood(prog, ops);
    if HRun(prog, ops).value.sys.reader.Handing? {
      HandReads(HRun(prog, ops).value.sys);
      all := ReaderStep(prog, ops, Hand);
    }
  }

  lemma HandReads(s: System)
    requires SysFine(s) && RecoveryGood(s) && s.reader.Handing?
    ensures SysEnabled(s, Hand) && SysStep(s, Hand).reader.Reading?
  {
  }

  lemma Drains(prog: seq<Instr>, ops: seq<HOp>) returns (all: seq<HOp>)
    requires HRun(prog, ops).Some? && AtClosedGate(HRun(prog, ops).value) && HRun(prog, ops).value.sys.reader.Closing?
    ensures HRun(prog, all).Some? && AtClosedGate(HRun(prog, all).value) && HRun(prog, all).value.sys.reader.Failing?
  {
    HRunGood(prog, ops);
    var c := HRun(prog, ops).value.sys.client;
    KeysAreListed(c);
    all := ReaderStep(prog, ops, DrainAll(KeysTo(c, |c.calls|)));
  }

  /** From a closed gate the stream can end and recovery run to its end. */
  lemma StreamEnds(prog: seq<Instr>, ops: seq<HOp>) returns (all: seq<HOp>)
    requires HRun(prog, ops).Some? && AtClosedGate(HRun(prog, ops).value)
    requires HRun(prog, ops).value.sys.reader.Reading? || HRun(prog, ops).value.sys.reader.Handing?
    ensures HRun(prog, all).Some? && AtClosedGate(HRun(prog, all).value) && HRun(prog, all).value.sys.reader.Finished?
  {
    all := BackToReading(prog, ops);
    all := ReaderStep(prog, all, ReadError);
    all := Drains(prog, all);
    all := HandsOver(prog, all);
    all := ReaderStep(prog, all, CancelStop);
    all := ReaderStep(prog, all, FireTerminated);
  }

  /** Everything but a further wait and the cancellation of the handshake. */
  predicate LeavesAlone(more: seq<HOp>) {
    forall i | 0 <= i < |more| :: more[i] != Env(Park) && more[i] != Cancel
  }

  lemma GateStays(h: Shake, op: HOp)
    requires SysFine(h.sys) && AtGate(h) && !h.sys.latch.fired && h.sys.latch.parked == Some(h.cursor.p)
    requires h.sys.reader.Finished? && HStep(h, op).Some? && op != Env(Park) && op != Cancel
    ensures var t := HStep(h, op).value;
            AtGate(t) && !t.sys.latch.fired && t.sys.latch.parked == Some(t.cursor.p) && t.sys.reader.Finished?
  {
  }

  lemma {:induction false} GateStaysShut(prog: seq<Instr>, ops: seq<HOp>, more: seq<HOp>)
    requires HRun(prog, ops).Some? && AtClosedGate(HRun(prog, ops).value) && HRun(prog, ops).value.sys.reader.Finished?
    requires HRun(prog, ops + more).Some? && LeavesAlone(more)
    ensures var h := HRun(prog, ops + more).value;
            AtGate(h) && !h.sys.latch.fired && h.sys.latch.parked == Some(h.cursor.p) && h.sys.reader.Finished?
    decreases |more|
  {
    if more == [] {
      assert ops + more == ops;
    } else {
      var shorter := more[..|more| - 1];
      assert (ops + more)[..|ops + more| - 1] == ops + shorter;
      GateStaysShut(prog, ops, shorter);
      GateStays(HRun(prog, ops + shorter).value, more[|more| - 1]);
    }
  }

  /**
   * A crash can leave a launch waiting for good: every launch has a run in which the stream ends
   * before `initialized`, recovery is over, and the launch has no result in any continuation in
   * which it is not cancelled and nobody else waits for the event.
   */
  lemma LaunchHangsAfterCrash(spec: LaunchSpec) returns (ops: seq<HOp>)
    requires |LaunchPlan(spec)| < TWO64
    ensures HRun(LaunchProgram(spec), ops).Some? && HRun(LaunchProgram(spec), ops).value.sys.reader.Finished?
    ensures forall more: seq<HOp> | LeavesAlone(more) && HRun(LaunchProgram(spec), ops + more).Some? ::
              AtGate(HRun(LaunchProgram(spec), ops + more).value)
  {
    var prog := LaunchProgram(spec);
    ops := RunToWait(spec);
    HRunGood(prog, ops);
    RunKeepsLatch(prog, ops);
    WaitsAtGate(HRun(prog, ops).value, spec);
    ops := StreamEnds(prog, ops);
    forall more: seq<HOp> | LeavesAlone(more) && HRun(prog, ops + more).Some?
      ensures AtGate(HRun(prog, ops + more).value)
    {
      GateStaysShut(prog, ops, more);
    }
  }

  lemma WaitsAtGate(h: Shake, spec: LaunchSpec)
    requires Waits(h) && LatchGood(h.sys.latch) && h.prog == LaunchProgram(spec)
    ensures AtClosedGate(h)
  {
    ParkedAtGate(h);
  }

  lemma ParkedAtGate(h: Shake)
    requires h.pc <= |h.prog| && CursorGood(h) && h.cursor.Parked? && h.result.None? && !h.sys.latch.fired
    requires LatchGood(h.sys.latch) && h.sys.latch.parks <= 1
    ensures AtGate(h) && h.sys.latch.parked == Some(h.cursor.p)
  {
  }
}
