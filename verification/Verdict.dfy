/** What the replies to its requests make of a handshake or a resume. */
module Verdicts {
  import opened Types
  import opened Clients
  import opened ReadLoops
  import opened Handshakes
  import opened EntryStops
  import opened LaunchProgress
  import opened DisplacedWaits
  import opened Crashes
  import W = StopWaiters

  // ----- which requests are checked, by their commands

  /** The requests whose response must report success. */
  predicate MustSucceed(cmd: Command) {
    cmd.Initialize? || cmd.Launch? || cmd.Attach? || cmd.SetBreakpoints? || cmd.SetFunctionBreakpoints?
  }

  /** The response is good enough for that request. */
  predicate GoodAnswer(cmd: Command, r: Response) {
    && (MustSucceed(cmd) ==> r.success)
    && (cmd.SetBreakpoints? ==> r.command == "setBreakpoints")
  }

  /** The program asks of each response what its request calls for, and awaits one start request. */
  predicate ChecksRight(prog: seq<Instr>) {
    && (forall j | 0 <= j < |prog| && prog[j].Send? ::
          prog[j].check == if prog[j].cmd.SetBreakpoints? then SuccessOf("setBreakpoints")
                           else if MustSucceed(prog[j].cmd) then Success else Unchecked)
    && (forall j | 0 <= j < |prog| && prog[j].SendAsync? :: prog[j].cmd.Launch? || prog[j].cmd.Attach?)
    && (forall i, j | 0 <= i < j < |prog| :: !(prog[i].SendAsync? && prog[j].SendAsync?))
    && (forall j | 0 <= j < |prog| && prog[j].SendAsync? :: exists i :: j < i < |prog| && prog[i].AwaitAsync?)
    && (forall j | 0 <= j < |prog| && prog[j].AwaitStop? :: j == |prog| - 1)
  }

  lemma LaunchChecks(spec: LaunchSpec)
    ensures ChecksRight(LaunchProgram(spec))
  {
    var prog, tail := LaunchProgram(spec), LaunchTail(spec.stopOnEntry);
    var n := LaunchParts(spec);
    var m := if spec.stopOnEntry then n + 3 else n + 2;
    assert prog[m] == tail[m - n] == AwaitAsync;
    forall j | 0 <= j < |prog| && prog[j].Send?
      ensures prog[j].check == if prog[j].cmd.SetBreakpoints? then SuccessOf("setBreakpoints")
                               else if MustSucceed(prog[j].cmd) then Success else Unchecked
    {
      if 3 <= j < n { assert Flush(prog[j]); }
      if n <= j { assert prog[j] == tail[j - n]; }
    }
  }

  lemma OthersCheck()
    ensures ChecksRight(ATTACH_PROGRAM) && ChecksRight(RESUME_PROGRAM)
  {
    assert ATTACH_PROGRAM[5] == AwaitAsync;
  }

  // ----- every instruction passed has its good answer

  /** The call came back with a good answer to that request. */
  predicate Accepted(call: Call, cmd: Command) {
    call.phase.Returned? && call.phase.reply.Ok? && GoodAnswer(cmd, call.phase.reply.response)
  }

  ghost predicate CallsKnown(h: Shake)
    requires h.pc <= |h.prog|
  {
    && (forall j | j in h.callOf :: h.callOf[j] in h.own && h.callOf[j] < |h.sys.client.calls|)
    && (forall i, j | i in h.callOf && j in h.callOf && i != j :: h.callOf[i] != h.callOf[j])
    && (forall j | j in h.callOf :: j < h.pc || (j == h.pc && h.cursor.InCall?))
    && (h.cursor.InCall? ==> h.pc in h.callOf && h.callOf[h.pc] == h.cursor.k)
    && (forall j | 0 <= j < h.pc && Sends(h.prog[j]) :: j in h.callOf)
    && (forall j | 0 <= j < h.pc && h.prog[j].SendAsync? :: h.async == Some(h.callOf[j]))
  }

  /** What the passed instructions were answered. */
  ghost predicate AnswersGood(h: Shake)
    requires h.pc <= |h.prog| && CallsKnown(h)
  {
    && (forall j | 0 <= j < h.pc && h.prog[j].Send? :: Accepted(h.sys.client.calls[h.callOf[j]], h.prog[j].cmd))
    && (forall i, j | 0 <= j < i < h.pc && h.prog[j].SendAsync? && h.prog[i].AwaitAsync? ::
          Accepted(h.sys.client.calls[h.callOf[j]], h.prog[j].cmd))
  }

  ghost predicate Known(h: Shake) {
    h.pc <= |h.prog| && CallsKnown(h) && AnswersGood(h)
  }

  /** Nothing happened to the calls of passed instructions, but for call `k`. */
  ghost predicate Kept(h: Shake, t: Shake, k: Option<nat>)
    requires h.pc <= |h.prog| && CallsKnown(h)
  {
    && |h.sys.client.calls| <= |t.sys.client.calls|
    && forall j | j in h.callOf && Some(h.callOf[j]) != k ::
         t.sys.client.calls[h.callOf[j]].phase == h.sys.client.calls[h.callOf[j]].phase
  }

  /** A step that does not move the program on. */
  lemma StaysKnown(h: Shake, t: Shake, k: Option<nat>)
    requires h.pc <= |h.prog| && Known(h) && Kept(h, t, k)
    requires t.prog == h.prog && t.pc == h.pc && t.async == h.async && t.callOf == h.callOf && t.own == h.own
    requires t.cursor == h.cursor || (h.cursor.InCall? && t.cursor.InCall? && t.cursor.k == h.cursor.k) || (!h.cursor.InCall? && !t.cursor.InCall?)
    requires k.Some? ==> Unneeded(h, k.value)
    ensures Known(t)
  {
  }

  /** No instruction passed so far rests on the answer to call `k`. */
  ghost predicate Unneeded(h: Shake, k: nat)
    requires h.pc <= |h.prog|
  {
    forall j | 0 <= j < h.pc && j in h.callOf && h.callOf[j] == k :: h.prog[j].SendAsync? && NoneBefore(h.prog, h.pc)
  }

  lemma EnvKnown(h: Shake, op: SysOp)
    requires ProgGood(h) && SysFine(h.sys) && Known(h) && SysEnabled(h.sys, op) && Foreign(h.own, op)
    ensures Known(Via(h, op))
  {
    var t := Via(h, op);
    StepFollows(h.sys, op);
    forall j | j in h.callOf ensures t.sys.client.calls[h.callOf[j]].phase == h.sys.client.calls[h.callOf[j]].phase {
      ForeignKeepsPhase(h.sys, op, h.own, h.callOf[j]);
    }
    StaysKnown(h, t, None);
  }

  /** A step of one's own in call `k` leaves the others alone. */
  lemma CallKept(h: Shake, op: Op, k: nat)
    requires h.pc <= |h.prog| && CallsKnown(h) && SysFine(h.sys) && SysEnabled(h.sys, Caller(op))
    requires op.Register? || op.WriteOk? || op.WriteFail? || op.Await? || op.Drop?
    requires op.k == k
    ensures Kept(h, Via(h, Caller(op)), Some(k))
  {
    StepFollows(h.sys, Caller(op));
    forall j | j in h.callOf && h.callOf[j] != k
      ensures Via(h, Caller(op)).sys.client.calls[h.callOf[j]].phase == h.sys.client.calls[h.callOf[j]].phase
    {
      CallKeepsOthers(h.sys, op, h.callOf[j]);
    }
  }

  lemma StartKnown(h: Shake, guarded: bool)
    requires ProgGood(h) && SysFine(h.sys) && Known(h) && h.cursor.Between? && h.pc < |h.prog|
    ensures Known(StartCall(h, guarded))
  {
    var t := StartCall(h, guarded);
    StartedCall(h, guarded);
    forall j | j in h.callOf ensures t.sys.client.calls[h.callOf[j]].phase == h.sys.client.calls[h.callOf[j]].phase {
      CallKeepsOthers(h.sys, NextSeq(guarded), h.callOf[j]);
    }
    NewCallKnown(h, t);
  }

  lemma StartedCall(h: Shake, guarded: bool)
    requires SysFine(h.sys)
    ensures var t, k := StartCall(h, guarded), |h.sys.client.calls|;
            && t == h.(sys := t.sys, obs := t.obs, cursor := InCall(k, false), own := h.own + {k}, callOf := h.callOf[h.pc := k])
            && |t.sys.client.calls| == k + 1
  {
  }

  lemma NewCallKnown(h: Shake, t: Shake)
    requires h.pc < |h.prog| && Known(h) && h.cursor.Between?
    requires var k := |h.sys.client.calls|;
             && t == h.(sys := t.sys, obs := t.obs, cursor := InCall(k, false), own := h.own + {k}, callOf := h.callOf[h.pc := k])
             && |t.sys.client.calls| == k + 1
    requires forall j | j in h.callOf :: t.sys.client.calls[h.callOf[j]].phase == h.sys.client.calls[h.callOf[j]].phase
    ensures Known(t)
  {
    assert h.pc !in h.callOf;
    assert CallsKnown(t);
    forall j | 0 <= j < t.pc && t.prog[j].Send? ensures Accepted(t.sys.client.calls[t.callOf[j]], t.prog[j].cmd) {
      assert Accepted(h.sys.client.calls[h.callOf[j]], h.prog[j].cmd);
    }
  }

  lemma WriteKnown(h: Shake, writes: bool)
    requires ProgGood(h) && SysFine(h.sys) && Known(h) && h.pc < |h.prog| && Sends(h.prog[h.pc])
    requires h.cursor.InCall? && !h.cursor.written && OwnStep(h, writes).Some?
    ensures Known(OwnStep(h, writes).value)
  {
    var k := h.cursor.k;
    var op := if Enabled(h.sys.client, Register(k)) then Register(k) else if writes then WriteOk(k) else WriteFail(k);
    CallKept(h, op, k);
    StaysKnown(h, OwnStep(h, writes).value, Some(k));
  }

  /** What awaiting call `k` does to the rest. */
  lemma AwaitedStep(h: Shake, k: nat, check: Check)
    requires SysFine(h.sys) && Enabled(h.sys.client, Await(k))
    ensures var t := AwaitStep(h, k, check);
            && t.Some? && t.value.prog == h.prog && t.value.async == h.async && t.value.callOf == h.callOf && t.value.own == h.own
            && t.value.sys == Via(h, Caller(Await(k))).sys
            && k < |t.value.sys.client.calls| && t.value.sys.client.calls[k].phase == Returned(Received(h.sys.client.calls[k]))
            && (Passes(Received(h.sys.client.calls[k]), check) ==>
                  t.value.pc == h.pc + 1 && t.value.cursor.Between? && t.value.result == h.result)
            && (!Passes(Received(h.sys.client.calls[k]), check) ==>
                  t.value.pc == h.pc && t.value.cursor == h.cursor && t.value.result.Some? && t.value.result.value.Aborted?)
  {
  }

  lemma AwaitSendKnown(h: Shake)
    requires ProgGood(h) && SysFine(h.sys) && Known(h) && ChecksRight(h.prog)
    requires h.pc < |h.prog| && h.prog[h.pc].Send? && h.cursor.InCall? && Enabled(h.sys.client, Await(h.cursor.k))
    ensures Known(AwaitStep(h, h.cursor.k, h.prog[h.pc].check).value)
  {
    var k, check := h.cursor.k, h.prog[h.pc].check;
    AwaitedStep(h, k, check);
    CallKept(h, Await(k), k);
    var t := AwaitStep(h, k, check).value;
    if Passes(Received(h.sys.client.calls[k]), check) {
      assert Accepted(t.sys.client.calls[k], h.prog[h.pc].cmd);
      SendPassed(h, t);
    } else {
      StaysKnown(h, t, Some(k));
    }
  }

  /** The program moves past a request with a good answer. */
  lemma SendPassed(h: Shake, t: Shake)
    requires h.pc < |h.prog| && Known(h) && h.prog[h.pc].Send? && h.cursor.InCall?
    requires Kept(h, t, Some(h.cursor.k)) && Accepted(t.sys.client.calls[h.cursor.k], h.prog[h.pc].cmd)
    requires t.prog == h.prog && t.pc == h.pc + 1 && t.cursor.Between? && t.async == h.async && t.callOf == h.callOf && t.own == h.own
    ensures Known(t)
  {
  }

  lemma AsyncPassed(h: Shake)
    requires h.pc < |h.prog| && Known(h) && ChecksRight(h.prog) && h.prog[h.pc].SendAsync? && h.cursor.InCall?
    ensures Known(Next(h.(async := Some(h.cursor.k))))
  {
  }

  lemma AwaitAsyncKnown(h: Shake)
    requires ProgGood(h) && SysFine(h.sys) && Known(h) && ChecksRight(h.prog) && Ordered(h.prog)
    requires h.pc < |h.prog| && h.prog[h.pc].AwaitAsync? && h.cursor.Between? && h.async.Some? && Enabled(h.sys.client, Await(h.async.value))
    ensures Known(AwaitStep(h, h.async.value, Success).value)
  {
    var k := h.async.value;
    AwaitedStep(h, k, Success);
    CallKept(h, Await(k), k);
    AsyncUnneeded(h);
    var t := AwaitStep(h, k, Success).value;
    if Passes(Received(h.sys.client.calls[k]), Success) {
      StartAnswered(h, t);
    } else {
      StaysKnown(h, t, Some(k));
    }
  }

  lemma AsyncUnneeded(h: Shake)
    requires h.pc < |h.prog| && CallsKnown(h) && Ordered(h.prog) && h.prog[h.pc].AwaitAsync? && h.async.Some?
    ensures NoneBefore(h.prog, h.pc) && Unneeded(h, h.async.value)
  {
    var i :| 0 <= i < h.pc && h.prog[i].SendAsync?;
    assert h.callOf[i] == h.async.value;
  }

  lemma StartAnswered(h: Shake, t: Shake)
    requires h.pc < |h.prog| && Known(h) && ChecksRight(h.prog) && NoneBefore(h.prog, h.pc)
    requires h.prog[h.pc].AwaitAsync? && h.cursor.Between? && h.async.Some? && Unneeded(h, h.async.value)
    requires Kept(h, t, h.async) && h.async.value < |t.sys.client.calls|
    requires var phase := t.sys.client.calls[h.async.value].phase; phase.Returned? && Passes(phase.reply, Success)
    requires t.prog == h.prog && t.pc == h.pc + 1 && t.cursor.Between? && t.async == h.async && t.callOf == h.callOf && t.own == h.own
    ensures Known(t)
  {
    PassedCalls(h, t);
    SendsStayGood(h, t);
    forall j | 0 <= j < h.pc && h.prog[j].SendAsync? ensures Accepted(t.sys.client.calls[t.callOf[j]], t.prog[j].cmd) {
      assert h.async == Some(h.callOf[j]);
    }
  }

  lemma PassedCalls(h: Shake, t: Shake)
    requires h.pc < |h.prog| && CallsKnown(h) && !Sends(h.prog[h.pc]) && !h.cursor.InCall? && !t.cursor.InCall?
    requires |h.sys.client.calls| <= |t.sys.client.calls|
    requires t.prog == h.prog && t.pc == h.pc + 1 && t.async == h.async && t.callOf == h.callOf && t.own == h.own
    ensures CallsKnown(t)
  {
  }

  lemma SendsStayGood(h: Shake, t: Shake)
    requires h.pc < |h.prog| && Known(h) && h.prog[h.pc].AwaitAsync? && h.async.Some? && Unneeded(h, h.async.value)
    requires Kept(h, t, h.async) && t.prog == h.prog && t.callOf == h.callOf && t.pc == h.pc + 1
    ensures forall j | 0 <= j < t.pc && t.prog[j].Send? ::
              j in t.callOf && t.callOf[j] < |t.sys.client.calls| && Accepted(t.sys.client.calls[t.callOf[j]], t.prog[j].cmd)
  {
    forall j | 0 <= j < t.pc && t.prog[j].Send?
      ensures j in t.callOf && t.callOf[j] < |t.sys.client.calls| && Accepted(t.sys.client.calls[t.callOf[j]], t.prog[j].cmd)
    {
      assert Accepted(h.sys.client.calls[h.callOf[j]], h.prog[j].cmd);
    }
  }

  /** Passing an instruction that concerns no call. */
  lemma OtherPassed(h: Shake, t: Shake)
    requires h.pc < |h.prog| && Known(h) && !Sends(h.prog[h.pc]) && !h.prog[h.pc].AwaitAsync?
    requires !h.cursor.InCall? && !t.cursor.InCall? && t.sys.client == h.sys.client
    requires t.prog == h.prog && t.pc == h.pc + 1 && t.async == h.async && t.callOf == h.callOf && t.own == h.own
    ensures Known(t)
  {
  }

  lemma SendKnown(h: Shake, writes: bool)
    requires ProgGood(h) && SysFine(h.sys) && Known(h) && ChecksRight(h.prog)
    requires h.pc < |h.prog| && Sends(h.prog[h.pc]) && OwnStep(h, writes).Some?
    ensures Known(OwnStep(h, writes).value)
  {
    if h.cursor.Between? {
      StartKnown(h, h.prog[h.pc].Send?);
    } else if !h.cursor.written {
      WriteKnown(h, writes);
    } else if h.prog[h.pc].Send? {
      AwaitSendKnown(h);
    } else {
      AsyncPassed(h);
    }
  }

  lemma OwnKnown(h: Shake, writes: bool)
    requires ProgGood(h) && SysFine(h.sys) && Known(h) && ChecksRight(h.prog) && Ordered(h.prog)
    requires OwnStep(h, writes).Some?
    ensures Known(OwnStep(h, writes).value)
  {
    if h.pc == |h.prog| {
      EndKnown(h, writes);
    } else if Sends(h.prog[h.pc]) {
      SendKnown(h, writes);
    } else if h.prog[h.pc].WaitInit? {
      GateKnown(h, writes);
    } else if h.prog[h.pc].RegisterWaiter? {
      WaiterKnown(h, writes);
    } else if h.prog[h.pc].AwaitAsync? {
      ResponseKnown(h, writes);
    } else {
      EndKnown(h, writes);
    }
  }

  lemma EndKnown(h: Shake, writes: bool)
    requires SysFine(h.sys) && Known(h) && (h.pc < |h.prog| ==> h.prog[h.pc].AwaitStop?) && OwnStep(h, writes).Some?
    ensures Known(OwnStep(h, writes).value)
  {
    var t := OwnStep(h, writes).value;
    assert t == h.(result := t.result);
    StaysKnown(h, t, None);
  }

  lemma WaiterKnown(h: Shake, writes: bool)
    requires ProgGood(h) && SysFine(h.sys) && Known(h) && h.pc < |h.prog| && h.prog[h.pc].RegisterWaiter? && OwnStep(h, writes).Some?
    ensures Known(OwnStep(h, writes).value)
  {
    WaiterShape(h, writes);
    OtherPassed(h, OwnStep(h, writes).value);
  }

  lemma ResponseKnown(h: Shake, writes: bool)
    requires ProgGood(h) && SysFine(h.sys) && Known(h) && ChecksRight(h.prog) && Ordered(h.prog)
    requires h.pc < |h.prog| && h.prog[h.pc].AwaitAsync? && OwnStep(h, writes).Some?
    ensures Known(OwnStep(h, writes).value)
  {
    AwaitAsyncKnown(h);
  }

  lemma WaiterShape(h: Shake, writes: bool)
    requires ProgGood(h) && SysFine(h.sys) && h.result.None? && h.pc < |h.prog| && h.prog[h.pc].RegisterWaiter?
    ensures var t := OwnStep(h, writes).value;
            && t == h.(sys := t.sys, pc := h.pc + 1, cursor := Between, waiter := t.waiter, obs := t.obs) && t.sys.client == h.sys.client
            && !h.cursor.InCall?
  {
  }

  lemma GateKnown(h: Shake, writes: bool)
    requires ProgGood(h) && SysFine(h.sys) && Known(h)
    requires h.pc < |h.prog| && h.prog[h.pc].WaitInit? && OwnStep(h, writes).Some?
    ensures Known(OwnStep(h, writes).value)
  {
    var t := OwnStep(h, writes).value;
    if t.pc == h.pc + 1 {
      OtherPassed(h, t);
    } else {
      assert t == h.(sys := t.sys, cursor := t.cursor, obs := t.obs) && t.sys.client == h.sys.client;
      StaysKnown(h, t, None);
    }
  }

  lemma CancelKnown(h: Shake)
    requires ProgGood(h) && SysFine(h.sys) && Known(h) && HStep(h, Cancel).Some?
    ensures Known(HStep(h, Cancel).value)
  {
    if h.cursor.InCall? {
      var k := h.cursor.k;
      CallKept(h, Drop(k), k);
      StaysKnown(h, HStep(h, Cancel).value, Some(k));
    }
  }

  /** A stop is reported, or missed, only at the wait for it. */
  predicate StopsAtStop(h: Shake) {
    h.result == Some(Lost) || (h.result.Some? && h.result.value.Done? && h.result.value.outcome.Some?) ==>
      h.pc < |h.prog| && h.prog[h.pc].AwaitStop?
  }

  lemma StepStopsAtStop(h: Shake, op: HOp)
    requires SysFine(h.sys) && ProgGood(h) && StopsAtStop(h) && HStep(h, op).Some?
    ensures StopsAtStop(HStep(h, op).value)
  {
    if op.Own? && h.pc < |h.prog| {
      if Sends(h.prog[h.pc]) { SendDoesNotEnd(h, op.writes); }
      else if !h.prog[h.pc].AwaitStop? { OtherDoesNotEnd(h, op.writes); }
    }
  }

  lemma OtherDoesNotEnd(h: Shake, writes: bool)
    requires SysFine(h.sys) && h.pc < |h.prog| && !Sends(h.prog[h.pc]) && !h.prog[h.pc].AwaitStop? && OwnStep(h, writes).Some?
    ensures var r := OwnStep(h, writes).value.result; r.None? || r.value.Aborted?
  {
  }

  lemma SendDoesNotEnd(h: Shake, writes: bool)
    requires SysFine(h.sys) && ProgGood(h) && h.pc < |h.prog| && Sends(h.prog[h.pc]) && OwnStep(h, writes).Some?
    ensures var r := OwnStep(h, writes).value.result; r.None? || r.value.Aborted?
  {
  }

  lemma {:induction false} RunKnown(prog: seq<Instr>, ops: seq<HOp>)
    requires ChecksRight(prog) && Ordered(prog)
    requires HRun(prog, ops).Some? && |HRun(prog, ops).value.sys.client.calls| <= TWO64
    ensures var h := HRun(prog, ops).value;
            HGood(h) && h.prog == prog && Known(h) && StopsAtStop(h)
  {
    HRunGood(prog, ops);
    if ops != [] {
      var h, op := HRun(prog, ops[..|ops| - 1]).value, ops[|ops| - 1];
      HStepGrows(h, op);
      RunKnown(prog, ops[..|ops| - 1]);
      StepStopsAtStop(h, op);
      match op
      case Own(writes) => OwnKnown(h, writes);
      case Env(e) => EnvKnown(h, e);
      case Cancel => CancelKnown(h);
    }
  }

  // ----- a success has good answers behind it

  /** Instruction `j` made a call, and it was sent just this response. */
  ghost predicate AnsweredWith(h: Shake, j: nat, r: Response) {
    j in h.callOf && h.callOf[j] < |h.sys.client.calls| && h.sys.client.calls[h.callOf[j]].sent == [Ok(r)]
  }

  predicate Succeeded(h: Shake) {
    h.result.Some? && (h.result.value.Done? || h.result.value.Lost?)
  }

  lemma SuccessPassedAll(h: Shake)
    requires ProgGood(h) && StopsAtStop(h) && ChecksRight(h.prog) && Succeeded(h)
    ensures forall j | 0 <= j < |h.prog| && (Sends(h.prog[j]) || h.prog[j].AwaitAsync?) :: j < h.pc
  {
  }

  lemma PassedAnswered(h: Shake, j: nat)
    requires HGood(h) && Known(h) && ChecksRight(h.prog) && j < h.pc && Sends(h.prog[j])
    requires forall i | 0 <= i < |h.prog| && h.prog[i].AwaitAsync? :: i < h.pc
    ensures exists r :: AnsweredWith(h, j, r) && GoodAnswer(h.prog[j].cmd, r)
  {
    var k := h.callOf[j];
    if h.prog[j].SendAsync? {
      var i :| j < i < |h.prog| && h.prog[i].AwaitAsync?;
      assert i < h.pc;
    }
    assert Accepted(h.sys.client.calls[k], h.prog[j].cmd);
    assert CallGood(h.sys.client, k);
    var r := h.sys.client.calls[k].phase.reply.response;
    assert AnsweredWith(h, j, r);
  }

  /**
   * Over every run of a launch, attach or resume: if it ends without an error, every request of it
   * was answered, and each that must succeed (initialize, launch or attach, every setBreakpoints,
   * setFunctionBreakpoints) with success, setBreakpoints under its own name.
   */
  lemma {:induction false} SuccessNeedsGoodAnswers(prog: seq<Instr>, ops: seq<HOp>)
    requires ChecksRight(prog) && Ordered(prog)
    requires HRun(prog, ops).Some? && |HRun(prog, ops).value.sys.client.calls| <= TWO64
    requires Succeeded(HRun(prog, ops).value)
    ensures var h := HRun(prog, ops).value;
            forall j | 0 <= j < |prog| && Sends(prog[j]) :: exists r :: AnsweredWith(h, j, r) && GoodAnswer(prog[j].cmd, r)
  {
    RunKnown(prog, ops);
    var h := HRun(prog, ops).value;
    SuccessPassedAll(h);
    forall j | 0 <= j < |prog| && Sends(prog[j]) ensures exists r :: AnsweredWith(h, j, r) && GoodAnswer(prog[j].cmd, r) {
      PassedAnswered(h, j);
    }
  }

  lemma ProgramsCheck(spec: LaunchSpec)
    ensures ChecksRight(LaunchProgram(spec)) && Ordered(LaunchProgram(spec))
    ensures ChecksRight(ATTACH_PROGRAM) && Ordered(ATTACH_PROGRAM)
    ensures ChecksRight(RESUME_PROGRAM) && Ordered(RESUME_PROGRAM)
  {
    LaunchChecks(spec);
    OthersCheck();
    ProgramsAreOrdered(spec);
  }

  // ----- what a reply does

  /** The end of a program whose request failed with `cause`. */
  function RequestFailed(cmd: Command, cause: BackendError): Result {
    Aborted(if cmd.Resume? then SendFailed else Dap, Some(cause))
  }

  /**
   * What each reply to a request does, in every reachable state in which the program awaits it: an
   * error ends it with that cause; a response of another type to setBreakpoints, or one without
   * success to a request that must succeed, ends it; anything else lets it go on, so that what
   * setExceptionBreakpoints, configurationDone and a resume are answered does not matter.
   */
  lemma {:induction false} ReplyDecides(prog: seq<Instr>, ops: seq<HOp>)
    requires ChecksRight(prog) && Ordered(prog)
    requires HRun(prog, ops).Some? && |HRun(prog, ops).value.sys.client.calls| <= TWO64
    requires var h := HRun(prog, ops).value;
             && h.result.None? && h.pc < |prog| && prog[h.pc].Send? && h.cursor.InCall? && h.cursor.written
             && h.cursor.k < |h.sys.client.calls| && h.sys.client.calls[h.cursor.k].sent != []
    ensures var h := HRun(prog, ops).value;
            var cmd, reply := prog[h.pc].cmd, h.sys.client.calls[h.cursor.k].sent[0];
            && OwnStep(h, true).Some?
            && var t := OwnStep(h, true).value;
               if reply.Err? then t.result == Some(RequestFailed(cmd, reply.error))
               else if cmd.SetBreakpoints? && reply.response.command != "setBreakpoints" then t.result == Some(Aborted(Protocol, None))
               else if MustSucceed(cmd) && !reply.response.success then t.result == Some(Aborted(Dap, None))
               else t.result.None? && t.pc == h.pc + 1
  {
    RunKnown(prog, ops);
    ReplyStep(HRun(prog, ops).value);
  }

  lemma ReplyStep(h: Shake)
    requires SysFine(h.sys) && ProgGood(h) && ChecksRight(h.prog)
    requires h.result.None? && h.pc < |h.prog| && h.prog[h.pc].Send? && h.cursor.InCall? && h.cursor.written
    requires h.cursor.k < |h.sys.client.calls| && h.sys.client.calls[h.cursor.k].sent != []
    ensures var cmd, reply := h.prog[h.pc].cmd, h.sys.client.calls[h.cursor.k].sent[0];
            && OwnStep(h, true).Some?
            && var t := OwnStep(h, true).value;
               if reply.Err? then t.result == Some(RequestFailed(cmd, reply.error))
               else if cmd.SetBreakpoints? && reply.response.command != "setBreakpoints" then t.result == Some(Aborted(Protocol, None))
               else if MustSucceed(cmd) && !reply.response.success then t.result == Some(Aborted(Dap, None))
               else t.result.None? && t.pc == h.pc + 1
  {
  }

  /** The same of the launch or attach response, awaited at the end. */
  lemma {:induction false} StartReplyDecides(prog: seq<Instr>, ops: seq<HOp>)
    requires ChecksRight(prog) && Ordered(prog)
    requires HRun(prog, ops).Some? && |HRun(prog, ops).value.sys.client.calls| <= TWO64
    requires var h := HRun(prog, ops).value;
             && h.result.None? && h.pc < |prog| && prog[h.pc].AwaitAsync? && h.async.Some?
             && h.async.value < |h.sys.client.calls| && h.sys.client.calls[h.async.value].sent != []
    ensures var h := HRun(prog, ops).value;
            var reply := h.sys.client.calls[h.async.value].sent[0];
            && OwnStep(h, true).Some?
            && var t := OwnStep(h, true).value;
               if reply.Err? then t.result == Some(Aborted(Dap, Some(reply.error)))
               else if !reply.response.success then t.result == Some(Aborted(Dap, None))
               else t.result.None? && t.pc == h.pc + 1
  {
    RunKeepsAsync(prog, ops);
    AwaitedIsWritten(HRun(prog, ops).value);
    StartReplyStep(HRun(prog, ops).value);
  }

  lemma StartReplyStep(h: Shake)
    requires SysFine(h.sys) && h.result.None? && h.pc < |h.prog| && h.prog[h.pc].AwaitAsync? && h.async.Some?
    requires h.async.value < |h.sys.client.calls| && h.sys.client.calls[h.async.value].sent != []
    requires h.sys.client.calls[h.async.value].phase.Written?
    ensures var reply := h.sys.client.calls[h.async.value].sent[0];
            && OwnStep(h, true).Some?
            && var t := OwnStep(h, true).value;
               if reply.Err? then t.result == Some(Aborted(Dap, Some(reply.error)))
               else if !reply.response.success then t.result == Some(Aborted(Dap, None))
               else t.result.None? && t.pc == h.pc + 1
  {
  }

  /** A request whose frame cannot be written ends the program. */
  lemma {:induction false} WriteFailureDecides(prog: seq<Instr>, ops: seq<HOp>)
    requires HRun(prog, ops).Some? && |HRun(prog, ops).value.sys.client.calls| <= TWO64
    requires var h := HRun(prog, ops).value;
             && h.result.None? && h.pc < |prog| && h.cursor.InCall? && !h.cursor.written
             && Enabled(h.sys.client, WriteOk(h.cursor.k))
    ensures var h := HRun(prog, ops).value;
            && h.prog == prog && Sends(prog[h.pc]) && OwnStep(h, false).Some?
            && OwnStep(h, false).value.result == Some(RequestFailed(prog[h.pc].cmd, SendFailed))
            && !InPending(OwnStep(h, false).value.sys.client, h.cursor.k)
  {
    HRunGood(prog, ops);
    WriteFailStep(HRun(prog, ops).value);
  }

  lemma WriteFailStep(h: Shake)
    requires SysFine(h.sys) && ProgGood(h) && h.result.None? && h.pc < |h.prog| && h.cursor.InCall? && !h.cursor.written
    requires Enabled(h.sys.client, WriteOk(h.cursor.k))
    ensures Sends(h.prog[h.pc]) && OwnStep(h, false).Some?
    ensures OwnStep(h, false).value.result == Some(RequestFailed(h.prog[h.pc].cmd, SendFailed))
    ensures !InPending(OwnStep(h, false).value.sys.client, h.cursor.k)
  {
    var k := h.cursor.k;
    assert OwnStep(h, false) == CallStep(h, k, h.prog[h.pc].cmd, false);
    WriteFailRemoves(h.sys.client, k);
  }

  lemma WriteFailRemoves(c: Client, k: nat)
    requires WellFormed(c) && Enabled(c, WriteFail(k))
    ensures !InPending(Step(c, WriteFail(k)), k)
  {
  }

  /**
   * Cancelling at an await within a request ends the program; the entry of a guarded request is gone
   * from the pending map, while that of launch or attach, which have no guard, stays. Nothing else moves.
   */
  lemma {:induction false} CancelDecides(prog: seq<Instr>, ops: seq<HOp>)
    requires HRun(prog, ops).Some? && |HRun(prog, ops).value.sys.client.calls| <= TWO64
    requires var h := HRun(prog, ops).value;
             h.result.None? && h.pc < |prog| && h.cursor.InCall? && Enabled(h.sys.client, Drop(h.cursor.k))
    ensures var h := HRun(prog, ops).value;
            && h.prog == prog && Sends(prog[h.pc]) && HStep(h, Cancel).Some?
            && var t := HStep(h, Cancel).value;
               && t.result == Some(Cancelled)
               && (InPending(t.sys.client, h.cursor.k) <==> prog[h.pc].SendAsync? && InPending(h.sys.client, h.cursor.k))
               && forall k | 0 <= k < |h.sys.client.calls| && k != h.cursor.k ::
                    t.sys.client.calls[k] == h.sys.client.calls[k] && (InPending(t.sys.client, k) <==> InPending(h.sys.client, k))
  {
    HRunGood(prog, ops);
    CancelStep(HRun(prog, ops).value);
  }

  lemma CancelStep(h: Shake)
    requires SysFine(h.sys) && ProgGood(h) && Good(h.sys.client) && |h.sys.client.calls| <= TWO64
    requires h.result.None? && h.pc < |h.prog| && h.cursor.InCall? && Enabled(h.sys.client, Drop(h.cursor.k))
    ensures Sends(h.prog[h.pc]) && HStep(h, Cancel).Some?
    ensures var t := HStep(h, Cancel).value;
            && t.result == Some(Cancelled)
            && (InPending(t.sys.client, h.cursor.k) <==> h.prog[h.pc].SendAsync? && InPending(h.sys.client, h.cursor.k))
            && forall k | 0 <= k < |h.sys.client.calls| && k != h.cursor.k ::
                 t.sys.client.calls[k] == h.sys.client.calls[k] && (InPending(t.sys.client, k) <==> InPending(h.sys.client, k))
  {
    DropShape(h.sys.client, h.cursor.k);
  }

  lemma DropShape(c: Client, k: nat)
    requires WellFormed(c) && Good(c) && |c.calls| <= TWO64 && Enabled(c, Drop(k))
    ensures var d := Step(c, Drop(k));
            && (InPending(d, k) <==> !c.calls[k].guarded && InPending(c, k))
            && |d.calls| == |c.calls|
            && forall j | 0 <= j < |c.calls| && j != k ::
                 d.calls[j] == c.calls[j] && (InPending(d, j) <==> InPending(c, j))
  {
    NoCollision(c);
    if SeqOf(k) in c.pending { assert EntryGood(c, SeqOf(k)); }
  }

  // ----- what the caller of a start sees

  /** The stop-like outcomes of the messages read, field by field. */
  function Outcomes(read: seq<DapMessage>): seq<StopOutcome> {
    if read == [] then []
    else
      var m := read[|read| - 1];
      Outcomes(read[..|read| - 1]) + if m.EventMessage? then OutcomesOf(m.event) else []
  }

  function OutcomesOf(event: Event): seq<StopOutcome> {
    match event
    case StoppedEvent(body) => [Stopped(StopInfo(body.reason, body.threadId, body.description, body.hitBreakpointIds))]
    case ExitedEvent(code) => [Exited(Some(code))]
    case TerminatedEvent => [Terminated]
    case _ => []
  }

  /** The outcomes a log of stop-waiter calls was given. */
  function Produced(log: seq<W.Op>): seq<StopOutcome> {
    if log == [] then []
    else Produced(log[..|log| - 1]) + if log[|log| - 1].Produce? then [log[|log| - 1].outcome] else []
  }

  lemma ProducedSnoc(log: seq<W.Op>, op: W.Op)
    ensures Produced(log + [op]) == Produced(log) + if op.Produce? then [op.outcome] else []
  {
    assert (log + [op])[..|log|] == log;
  }

  lemma OutcomesSnoc(read: seq<DapMessage>, m: DapMessage)
    ensures Outcomes(read + [m]) == Outcomes(read) + if m.EventMessage? then OutcomesOf(m.event) else []
  {
    assert (read + [m])[..|read|] == read;
  }

  lemma {:induction false} DispatchesAreProduced(obs: seq<Obs>)
    ensures Dispatches(obs) == Produced(StopOps(obs))
  {
    if obs != [] {
      DispatchesAreProduced(obs[..|obs| - 1]);
      var o := obs[|obs| - 1];
      match o
      case Dispatched(outcome) => ProducedSnoc(StopOps(obs[..|obs| - 1]), W.Produce(outcome));
      case Registration => ProducedSnoc(StopOps(obs[..|obs| - 1]), W.Register);
      case Wrote(_) =>
        var before := obs[..|obs| - 1];
        assert StopOps(before) + [] == StopOps(before) && Dispatches(before) + [] == Dispatches(before);
    }
  }

  /** The stop waiter was given what the messages say, and terminated if the stream ended. */
  ghost predicate LogFollows(s: System) {
    Produced(s.stopLog) == Outcomes(s.read) + if s.atCancel.Some? then [Terminated] else []
  }

  lemma ReadShape(s: System, m: DapMessage)
    requires SysFine(s) && SysEnabled(s, Read(m))
    ensures var t := SysStep(s, Read(m));
            && t.read == s.read + [m] && t.atCancel == s.atCancel
            && t.stopLog == s.stopLog + if m.EventMessage? then StopCallsOf(m.event) else []
  {
    if m.EventMessage? { EventShape(s, m.event); }
  }

  lemma EventShape(s: System, event: Event)
    requires SysFine(s)
    ensures DispatchEvent(s, event).stopLog == s.stopLog + StopCallsOf(event) && DispatchEvent(s, event).atCancel == s.atCancel
  {
  }

  lemma ProducedBy(log: seq<W.Op>, event: Event)
    ensures Produced(log + StopCallsOf(event)) == Produced(log) + OutcomesOf(event)
  {
    if StopLike(event) {
      ProducedSnoc(log, StopCallsOf(event)[0]);
    } else {
      assert log + [] == log && Produced(log) + [] == Produced(log);
    }
  }

  lemma ReadFollows(s: System, m: DapMessage)
    requires SysFine(s) && LogFollows(s) && s.atCancel.None? && SysEnabled(s, Read(m))
    ensures LogFollows(SysStep(s, Read(m)))
  {
    ReadShape(s, m);
    OutcomesSnoc(s.read, m);
    if m.EventMessage? {
      ProducedBy(s.stopLog, m.event);
    } else {
      assert s.stopLog + [] == s.stopLog;
    }
  }

  lemma StepFollowsLog(s: System, op: SysOp)
    requires SysFine(s) && RecoveryGood(s) && LogFollows(s) && SysEnabled(s, op)
    ensures LogFollows(SysStep(s, op))
  {
    match op
    case Read(m) => ReadFollows(s, m);
    case RegisterStop => ProducedSnoc(s.stopLog, W.Register);
    case CancelStop => ProducedSnoc(s.stopLog, W.Produce(Terminated));
    case _ => QuietLog(s, op);
  }

  lemma QuietLog(s: System, op: SysOp)
    requires SysFine(s) && SysEnabled(s, op) && !op.Read? && !op.RegisterStop? && !op.CancelStop?
    ensures var t := SysStep(s, op); t.stopLog == s.stopLog && t.read == s.read && t.atCancel == s.atCancel
  {
  }

  lemma {:induction false} RunFollowsLog(prog: seq<Instr>, ops: seq<HOp>)
    requires HRun(prog, ops).Some? && |HRun(prog, ops).value.sys.client.calls| <= TWO64
    ensures HGood(HRun(prog, ops).value) && LogFollows(HRun(prog, ops).value.sys)
  {
    HRunGood(prog, ops);
    if ops != [] {
      var h, op := HRun(prog, ops[..|ops| - 1]).value, ops[|ops| - 1];
      HStepGrows(h, op);
      RunFollowsLog(prog, ops[..|ops| - 1]);
      var o := HStepSystem(h, op);
      if o.Some? { StepFollowsLog(h.sys, o.value); }
    }
  }

  /** The first stop-like event read. */
  function FirstStop(read: seq<DapMessage>): Option<Event> {
    if read == [] then None
    else if read[0].EventMessage? && StopLike(read[0].event) then Some(read[0].event)
    else FirstStop(read[1..])
  }

  lemma {:induction false} FirstOutcome(read: seq<DapMessage>)
    ensures FirstStop(read).None? ==> Outcomes(read) == []
    ensures FirstStop(read).Some? ==> Outcomes(read) != [] && [Outcomes(read)[0]] == OutcomesOf(FirstStop(read).value)
  {
    if read != [] {
      OutcomesCons(read[0], read[1..]);
      FirstOutcome(read[1..]);
      assert [read[0]] + read[1..] == read;
    }
  }

  lemma {:induction false} OutcomesCons(m: DapMessage, read: seq<DapMessage>)
    ensures Outcomes([m] + read) == (if m.EventMessage? then OutcomesOf(m.event) else []) + Outcomes(read)
    decreases |read|
  {
    if read == [] {
      assert [m] + read == [m] && [m][..0] == [];
    } else {
      var init, last := read[..|read| - 1], read[|read| - 1];
      OutcomesCons(m, init);
      OutcomesSnoc([m] + init, last);
      assert [m] + init + [last] == [m] + read;
    }
  }

  /** What `run_launch` returns for the first stop-like event; the end of the stream counts as one. */
  function LaunchSees(first: Option<Event>): LaunchOutcome {
    match first
    case Some(StoppedEvent(b)) => LaunchStopped(StopInfo(b.reason, b.threadId, b.description, b.hitBreakpointIds))
    case Some(ExitedEvent(code)) => LaunchExited(Some(code))
    case _ => LaunchExited(None)
  }

  /**
   * What the caller of a stop-on-entry launch sees, in every interleaving in which no stop-like
   * event comes before `configurationDone` is written and nobody else registers: the fields of the
   * first stopped event, the code of the first exited one, or no code if the session just ended.
   */
  lemma {:induction false} LaunchReturnsFirstStop(spec: LaunchSpec, ops: seq<HOp>)
    requires spec.stopOnEntry && HRun(LaunchProgram(spec), ops).Some?
    requires var h := HRun(LaunchProgram(spec), ops).value;
             && |h.sys.client.calls| <= TWO64
             && |h.sys.stop.regs| == 1 && QuietBeforeConfigured(h.obs) && Succeeded(h)
    ensures var h := HRun(LaunchProgram(spec), ops).value;
            LaunchResult(h.result.value) == Some(LaunchSees(FirstStop(h.sys.read)))
  {
    var prog := LaunchProgram(spec);
    LaunchReportsEntryStop(spec, ops);
    RunFollowsLog(prog, ops);
    SeesFirst(HRun(prog, ops).value);
  }

  lemma SeesFirst(h: Shake)
    requires StopOps(h.obs) == h.sys.stopLog && LogFollows(h.sys) && Dispatches(h.obs) != [] && h.result == Some(Done(Some(Dispatches(h.obs)[0])))
    ensures LaunchResult(h.result.value) == Some(LaunchSees(FirstStop(h.sys.read)))
  {
    DispatchesAreProduced(h.obs);
    FirstOutcome(h.sys.read);
  }

  /** A launch that does not stop on entry reports a running program, whatever stops come. */
  lemma {:induction false} PlainLaunchReturnsRunning(spec: LaunchSpec, ops: seq<HOp>)
    requires !spec.stopOnEntry && HRun(LaunchProgram(spec), ops).Some?
    requires |HRun(LaunchProgram(spec), ops).value.sys.client.calls| <= TWO64 && Succeeded(HRun(LaunchProgram(spec), ops).value)
    ensures LaunchResult(HRun(LaunchProgram(spec), ops).value.result.value) == Some(LaunchRunning)
  {
    ProgramsCheck(spec);
    RunKnown(LaunchProgram(spec), ops);
    NoWaiter(spec);
  }

  /**
   * What the caller of an attach or a resume sees: the first stop-like event after its registration
   * and before the next, or terminated if another registration came first.
   */
  lemma {:induction false} WaitReturns(prog: seq<Instr>, ops: seq<HOp>)
    requires prog == ATTACH_PROGRAM || prog == RESUME_PROGRAM
    requires HRun(prog, ops).Some? && |HRun(prog, ops).value.sys.client.calls| <= TWO64 && Succeeded(HRun(prog, ops).value)
    ensures var h := HRun(prog, ops).value;
            && h.waiter.Some?
            && match W.FateOf(h.sys.stopLog, h.waiter.value)
               case Got(outcome) => WaitResult(h.result.value) == Some(outcome)
               case Orphaned => WaitResult(h.result.value) == Some(Terminated)
               case _ => false
  {
    OthersCheck();
    ProgramsAreOrdered(LaunchSpec([], [], false));
    RunKnown(prog, ops);
    ReportsFirstAfterRegistration(prog, ops);
    EndsWaiting(HRun(prog, ops).value);
  }

  lemma EndsWaiting(h: Shake)
    requires h.prog == ATTACH_PROGRAM || h.prog == RESUME_PROGRAM
    requires ProgGood(h)
    ensures h.result != Some(Done(None))
  {
    assert h.prog[|h.prog| - 1] == AwaitStop;
  }
}
