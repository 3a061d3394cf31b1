/** A launch that goes on without `initialized`, because somebody else waited for it too. */
module DisplacedWaits {
  import opened Types
  import opened Clients
  import opened ReadLoops
  import opened Handshakes
  import opened LaunchProgress

  // ----- a cooperative run is a run

  function AsSteps(plan: seq<Command>, ops: seq<GoodOp>): (r: seq<HOp>)
    ensures |r| == |ops|
  {
    if ops == [] then [] else AsSteps(plan, ops[..|ops| - 1]) + [AsStep(plan, ops[|ops| - 1])]
  }

  lemma {:induction false} GoodRunIsRun(policy: Policy, prog: seq<Instr>, ops: seq<GoodOp>)
    requires Shaped(prog) && |Commands(prog)| < TWO64 && GoodRun(policy, prog, ops).Some?
    ensures HRun(prog, AsSteps(Commands(prog), ops)) == GoodRun(policy, prog, ops)
  {
    if ops != [] {
      var last := |ops| - 1;
      GoodRunClosed(policy, prog, ops[..last]);
      GoodRunIsRun(policy, prog, ops[..last]);
      SameLastStep(policy, prog, ops);
    }
  }

  lemma SameLastStep(policy: Policy, prog: seq<Instr>, ops: seq<GoodOp>)
    requires ops != [] && GoodRun(policy, prog, ops).Some?
    requires var before := GoodRun(policy, prog, ops[..|ops| - 1]);
             && before.Some? && ClosedGood(before.value) && before.value.prog == prog
             && HRun(prog, AsSteps(Commands(prog), ops[..|ops| - 1])) == before
    ensures HRun(prog, AsSteps(Commands(prog), ops)) == GoodRun(policy, prog, ops)
  {
    var steps := AsSteps(Commands(prog), ops);
    assert steps[..|ops| - 1] == AsSteps(Commands(prog), ops[..|ops| - 1]);
  }

  lemma RunOn(prog: seq<Instr>, ops: seq<HOp>, op: HOp)
    requires HRun(prog, ops).Some?
    ensures HRun(prog, ops + [op]) == HStep(HRun(prog, ops).value, op)
  {
    assert (ops + [op])[..|ops|] == ops;
  }

  // ----- up to the wait

  /** The launch has not passed its wait, and the event has not come. */
  ghost predicate BeforeEvent(h: Shake, spec: LaunchSpec) {
    h.prog == LaunchProgram(spec) && ClosedGood(h) && h.result.None? && h.pc <= 2 && !h.sys.latch.fired
  }

  lemma OwnReadsNothing(h: Shake)
    requires SysFine(h.sys) && OwnStep(h, true).Some?
    ensures OwnStep(h, true).value.sys.read == h.sys.read
  {
    if h.pc < |h.prog| && (h.prog[h.pc].Send? || h.prog[h.pc].SendAsync?) { SendReadsNothing(h); }
  }

  lemma SendReadsNothing(h: Shake)
    requires SysFine(h.sys) && OwnStep(h, true).Some? && h.pc < |h.prog| && (h.prog[h.pc].Send? || h.prog[h.pc].SendAsync?)
    ensures OwnStep(h, true).value.sys.read == h.sys.read
  {
  }

  lemma AdapterReads(policy: Policy, h: Shake, op: GoodOp)
    requires SysFine(h.sys) && GoodStep(policy, h, op).Some? && !op.SendInit? && !op.Run?
    ensures EventMessage(Initialized) in GoodStep(policy, h, op).value.sys.read ==> EventMessage(Initialized) in h.sys.read
  {
  }

  lemma QuietStep(policy: Policy, h: Shake, op: GoodOp)
    requires SysGood(h.sys) && GoodStep(policy, h, op).Some? && !op.SendInit? && SysGood(GoodStep(policy, h, op).value.sys)
    ensures GoodStep(policy, h, op).value.sys.latch.fired ==> h.sys.latch.fired
  {
    if op.Run? { OwnReadsNothing(h); } else { AdapterReads(policy, h, op); }
  }

  lemma StaysBeforeEvent(policy: Policy, spec: LaunchSpec, h: Shake, op: GoodOp)
    requires BeforeEvent(h, spec) && !(h.pc == 2 && h.cursor.Parked?) && |h.sys.client.calls| < TWO64
    requires GoodStep(policy, h, op).Some? && !op.SendInit?
    ensures BeforeEvent(GoodStep(policy, h, op).value, spec)
  {
    GoodStepKeepsClosed(policy, h, op);
    QuietStep(policy, h, op);
    var n := LaunchParts(spec);
    assert h.prog[2] == WaitInit;
    NotPast(policy, h, op);
    NoResultYet(GoodStep(policy, h, op).value);
  }

  lemma NotPast(policy: Policy, h: Shake, op: GoodOp)
    requires SysFine(h.sys) && GoodStep(policy, h, op).Some? && h.result.None? && h.pc <= 2 && 2 < |h.prog|
    requires h.prog[2] == WaitInit && !h.sys.latch.fired && !(h.pc == 2 && h.cursor.Parked?)
    ensures GoodStep(policy, h, op).value.pc <= 2
  {
  }

  lemma NoResultYet(t: Shake)
    requires ClosedGood(t) && t.pc <= 2 && 2 < |t.prog|
    ensures t.result.None?
  {
  }

  lemma {:induction false} ReachesWait(policy: Policy, spec: LaunchSpec, ops: seq<GoodOp>) returns (all: seq<GoodOp>)
    requires |LaunchPlan(spec)| < TWO64 && GoodRun(policy, LaunchProgram(spec), ops).Some?
    requires BeforeEvent(GoodRun(policy, LaunchProgram(spec), ops).value, spec)
    ensures GoodRun(policy, LaunchProgram(spec), all).Some?
    ensures var h := GoodRun(policy, LaunchProgram(spec), all).value;
            BeforeEvent(h, spec) && h.pc == 2 && h.cursor.Parked?
    decreases StepBound(LaunchProgram(spec)) - Effort(policy, LaunchProgram(spec), ops)
  {
    var prog := LaunchProgram(spec);
    LaunchShaped(spec);
    LaunchCommands(spec);
    GoodRunClosed(policy, prog, ops);
    var h := GoodRun(policy, prog, ops).value;
    all := ops;
    if !(h.pc == 2 && h.cursor.Parked?) {
      CompletedBound(h);
      var n := LaunchParts(spec);
      var op := NeverStuck(policy, h);
      RunGrows(policy, prog, ops, op);
      StaysBeforeEvent(policy, spec, h, op);
      GoodRunClosed(policy, prog, ops + [op]);
      MeasureNonNegative(GoodRun(policy, prog, ops + [op]).value);
      all := ReachesWait(policy, spec, ops + [op]);
    }
  }

  // ----- and past it

  /** A program at a plain request writes it in three steps, if nothing else happens. */
  lemma {:induction false} WritesRequest(h: Shake)
    requires ProgGood(h) && SysFine(h.sys) && h.result.None? && h.pc < |h.prog| && h.prog[h.pc].Send? && h.cursor.Between?
    ensures var a := OwnStep(h, true);
            && a.Some? && OwnStep(a.value, true).Some? && OwnStep(OwnStep(a.value, true).value, true).Some?
            && (var t := OwnStep(OwnStep(a.value, true).value, true).value;
                Frames(t.obs) == Frames(h.obs) + [h.prog[h.pc].cmd] && t.sys.read == h.sys.read)
  {
    var k := |h.sys.client.calls|;
    var a := OwnStep(h, true).value;
    assert a == StartCall(h, true);
    assert a.sys.client.calls[k].phase.Numbered?;
    var b := OwnStep(a, true).value;
    assert b.sys.client.calls[k].phase.Registered? && b.cursor == InCall(k, false) && b.obs == h.obs;
    FrameRecorded(h.obs, h.prog[h.pc].cmd);
  }

  /**
   * There is a run of every launch in which a request behind the wait is written although
   * `initialized` was never dispatched.
   */
  lemma ConfiguresWithoutEvent(spec: LaunchSpec) returns (ops: seq<HOp>)
    requires |LaunchPlan(spec)| < TWO64
    ensures HRun(LaunchProgram(spec), ops).Some?
    ensures var h := HRun(LaunchProgram(spec), ops).value;
            |Frames(h.obs)| > 2 && EventMessage(Initialized) !in h.sys.read
  {
    ops := RunToWait(spec);
    ops := GoesPast(spec, ops);
    ops := WritesOn(spec, ops);
  }

  /** A run to the point where the launch waits. */
  lemma RunToWait(spec: LaunchSpec) returns (ops: seq<HOp>)
    requires |LaunchPlan(spec)| < TWO64
    ensures HRun(LaunchProgram(spec), ops).Some? && Waits(HRun(LaunchProgram(spec), ops).value)
  {
    var prog := LaunchProgram(spec);
    LaunchShaped(spec);
    LaunchCommands(spec);
    BeginClosed(prog);
    var good := ReachesWait(AnyTime, spec, []);
    GoodRunIsRun(AnyTime, prog, good);
    ops := AsSteps(Commands(prog), good);
    CompletedBound(HRun(prog, ops).value);
  }

  ghost predicate Waits(h: Shake) {
    && HGood(h) && h.result.None? && h.pc == 2 && h.cursor.Parked? && !h.sys.latch.fired
    && |h.sys.client.calls| <= TWO64 && (h.sys.reader.Reading? || h.sys.reader.Handing?) && h.sys.latch.parks <= 1
  }

  ghost predicate PastWait(h: Shake) {
    && h.result.None? && h.pc == 3 && h.cursor.Between? && EventMessage(Initialized) !in h.sys.read
    && |h.sys.client.calls| <= TWO64
  }

  lemma GoesPast(spec: LaunchSpec, ops: seq<HOp>) returns (all: seq<HOp>)
    requires HRun(LaunchProgram(spec), ops).Some? && Waits(HRun(LaunchProgram(spec), ops).value)
    ensures HRun(LaunchProgram(spec), all).Some? && PastWait(HRun(LaunchProgram(spec), all).value)
  {
    var prog := LaunchProgram(spec);
    var h := HRun(prog, ops).value;
    DisplacedWaitGoesOn(h, h.cursor.p);
    RunOn(prog, ops, Env(Park));
    RunOn(prog, ops + [Env(Park)], Own(true));
    all := ops + [Env(Park)] + [Own(true)];
  }

  lemma WritesOn(spec: LaunchSpec, ops: seq<HOp>) returns (all: seq<HOp>)
    requires HRun(LaunchProgram(spec), ops).Some? && PastWait(HRun(LaunchProgram(spec), ops).value)
    ensures HRun(LaunchProgram(spec), all).Some?
    ensures var h := HRun(LaunchProgram(spec), all).value;
            |Frames(h.obs)| > 2 && EventMessage(Initialized) !in h.sys.read
  {
    var prog := LaunchProgram(spec);
    var h := HRun(prog, ops).value;
    HRunGood(prog, ops);
    var n := LaunchParts(spec);
    LaunchShaped(spec);
    NumberOf(prog, 3);
    WritesRequest(h);
    RunOn(prog, ops, Own(true));
    RunOn(prog, ops + [Own(true)], Own(true));
    all := ops + [Own(true)] + [Own(true)];
    RunOn(prog, all, Own(true));
    all := all + [Own(true)];
  }
}
