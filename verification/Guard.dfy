/**
 * The session under concurrent handlers and pumps, one section of the session lock per step:
 * every handler that writes to the session (`execution.rs`, `lifecycle.rs`, `breakpoints.rs`, and
 * the frame map that `inspection.rs` and `frame.rs` store) and the pump a start spawns (`pump.rs`). Handlers check the
 * session's state first and write after their awaits, so a reset may come in between.
 */
module GenerationGuard {
  import opened Types
  import opened S = Sessions

  // ----- writes

  /** One write under the session lock; `Wipe` is `reset`, `ToEnd` is what `terminate_if_generation` guards. */
  datatype Write =
    | ToState(state: State)
    | ToEnd(code: Option<int>)
    | ToLastStop(info: StopInfo)
    | ToProgram(program: string)
    | ToPid(pid: int)
    | ToFrames(frames: map<int, int>)
    | AddSource(file: string, source: SourceBp)
    | AddFunction(function_: FunctionBp)
    | AddResponse(response: BpInfo)
    | RemoveById(id: int)
    | AddPendingSource(file: string, source: SourceBp)
    | AddPendingFunction(function_: FunctionBp)
    | Flush
    | Wipe

  function Push<T>(m: map<string, seq<T>>, file: string, x: T): map<string, seq<T>> {
    m[file := ListOf(m, file) + [x]]
  }

  function Put(inner: Inner, w: Write): Inner {
    match w
    case ToState(st) => inner.(state := st)
    case ToEnd(code) => inner.(state := State.Terminated, exitCode := if code.Some? then code else inner.exitCode)
    case ToLastStop(info) => inner.(lastStopped := Some(info))
    case ToProgram(p) => inner.(program := p)
    case ToPid(p) => inner.(pid := p)
    case ToFrames(f) => inner.(frames := f)
    case AddSource(file, bp) => inner.(sourceBps := Push(inner.sourceBps, file, bp))
    case AddFunction(bp) => inner.(functionBps := inner.functionBps + [bp])
    case AddResponse(info) => inner.(responses := inner.responses[info.id := info])
    case RemoveById(id) => if id in inner.responses then inner.Removed(id, inner.responses[id]) else inner
    case AddPendingSource(file, bp) => inner.(pendingSource := Push(inner.pendingSource, file, bp))
    case AddPendingFunction(bp) => inner.(pendingFunction := inner.pendingFunction + [bp])
    case Flush => inner.Flushed()
    case Wipe => inner.Reset()
  }

  // ----- handlers

  datatype Kind =
    | Resume
    | Launch
    | Attach
    | Disconnect
    | SetSource(file: string, source: SourceBp)
    | SetFunction(function_: FunctionBp)
    | RemoveBp(id: int)
    | Backtrace

  /** The state check each handler opens with. */
  predicate Admits(kind: Kind, state: State) {
    match kind
    case Launch => state == Idle
    case Attach => state == Idle
    case Disconnect => state != Idle
    case SetSource(_, _) => state == Idle || state == State.Stopped
    case SetFunction(_) => state == Idle || state == State.Stopped
    case _ => state == State.Stopped
  }

  /** A handshake that went through. */
  datatype Handshake = Handshake(program: string, pid: Option<int>, outcome: StartOutcome)

  /** What `launch` and `attach` then write, one lock at a time. */
  function WritesOf(h: Handshake): seq<Write> {
    [ToProgram(h.program)] + (if h.pid.Some? then [ToPid(h.pid.value)] else [])
    + match h.outcome
      case EntryStop(info) => [ToState(State.Stopped), ToLastStop(info)]
      case LeftRunning => [ToState(Running)]
      case EndedEarly => [ToState(State.Terminated)]
  }

  /** What came of the await of a breakpoint or backtrace handler. */
  datatype Reply = Refused | Breakpoint(info: BpInfo) | NoInfo | Frames(frames: map<int, int>)

  /** The commits of a breakpoint or backtrace handler, by the state it reads again and the reply it gets. */
  function Commits(kind: Kind, state: State, reply: Reply): seq<Write> {
    match kind
    case SetSource(file, bp) =>
      if state == Idle then [AddPendingSource(file, bp)]
      else if reply.Breakpoint? then [AddSource(file, bp), AddResponse(reply.info)] else []
    case SetFunction(bp) =>
      if state == Idle then [AddPendingFunction(bp)]
      else if reply.Breakpoint? then [AddFunction(bp), AddResponse(reply.info)]
      else if reply.NoInfo? then [AddFunction(bp)] else []
    case RemoveBp(id) => if reply.Refused? then [] else [RemoveById(id)]
    case Backtrace => if reply.Frames? then [ToFrames(reply.frames)] else []
    case _ => []
  }

  datatype Phase =
    | Checked
    | Opening(todo: seq<Write>)
    | Connecting
    | Connected
    | Starting
    | Captured
    | Waiting
    | Returned(outcome: StopOutcome)
    | Storing(todo: seq<Write>)
    | Over

  /** A generation that was read, and the number of resets there had been. */
  datatype Held = Held(g: nat, at: nat)

  /** `since` is the number of resets there had been when the handler checked the session's state. */
  datatype Task = Task(kind: Kind, since: nat, held: Option<Held>, phase: Phase)

  function OpeningPhase(kind: Kind): Phase {
    match kind
    case Launch => Opening([ToState(Configuring), Flush])
    case Attach => Opening([ToState(Configuring)])
    case Disconnect => Storing([Wipe])
    case _ => Checked
  }

  /** The unguarded write a task is about to make. */
  function NextWrite(phase: Phase): Option<Write> {
    match phase
    case Captured => Some(ToState(Running))
    case Opening(todo) => if todo == [] then None else Some(todo[0])
    case Storing(todo) => if todo == [] then None else Some(todo[0])
    case _ => None
  }

  function AfterWrite(phase: Phase): Phase {
    match phase
    case Captured => Waiting
    case Opening(todo) => if |todo| > 1 then Opening(todo[1..]) else Connecting
    case Storing(todo) => if |todo| > 1 then Storing(todo[1..]) else Over
    case _ => phase
  }

  /** The guarded write that ends a resume. */
  function GuardedWrite(outcome: StopOutcome): Write {
    match outcome
    case Stopped(_) => ToState(State.Stopped)
    case Exited(code) => ToEnd(code)
    case Terminated => ToState(State.Terminated)
  }

  // ----- steps

  /** `resets` counts without wrapping. */
  datatype System = System(inner: Inner, resets: nat, tasks: seq<Task>)

  datatype Op =
    | Begin(kind: Kind)
    | Proceed(t: nat, reply: Reply)
    | Connect(t: nat, ok: bool)
    | Capture(t: nat)
    | Plain(t: nat)
    | Answer(t: nat, outcome: Option<StopOutcome>)
    | GiveUp(t: nat)
    | Finish(t: nat)
    | HandshakeDone(t: nat, result: Option<Handshake>)
    | PumpEnd(t: nat, code: Option<int>)

  const INITIAL: System := System(Fresh(0), 0, [])

  predicate Matches(inner: Inner, task: Task) {
    task.held.Some? && task.held.value.g == inner.generation
  }

  /** The pump of a start runs from the moment the start read the generation. */
  predicate IsPump(task: Task) {
    (task.kind.Launch? || task.kind.Attach?) && task.held.Some?
  }

  /** The write a step makes, if it makes one. */
  function Makes(inner: Inner, task: Task, op: Op): Option<Write> {
    match op
    case Plain(_) => NextWrite(task.phase)
    case Finish(_) => if task.phase.Returned? && Matches(inner, task) then Some(GuardedWrite(task.phase.outcome)) else None
    case PumpEnd(_, code) => if IsPump(task) && Matches(inner, task) then Some(ToEnd(code)) else None
    case _ => None
  }

  /** Where the step leaves its task. */
  function Moved(s: System, task: Task, op: Op): Task {
    var held := Some(Held(s.inner.generation, s.resets));
    match op
    case Proceed(_, reply) =>
      if task.phase.Checked? && !task.kind.Resume?
      then task.(phase := Storing(Commits(task.kind, s.inner.state, reply))) else task
    case Connect(_, ok) =>
      if task.phase.Connecting? then task.(phase := if ok then Connected else Storing([Wipe])) else task
    case Capture(_) =>
      if task.phase.Checked? && task.kind.Resume? then task.(held := held, phase := Captured)
      else if task.phase.Connected? then task.(held := held, phase := Starting) else task
    case Plain(_) => if NextWrite(task.phase).Some? then task.(phase := AfterWrite(task.phase)) else task
    case Answer(_, reply) =>
      if task.phase.Waiting?
      then task.(phase := if reply.Some? then Returned(reply.value) else Storing([ToState(State.Stopped)])) else task
    case GiveUp(_) => if task.phase.Waiting? then task.(phase := Over) else task
    case Finish(_) =>
      if !task.phase.Returned? then task
      else if Matches(s.inner, task) && task.phase.outcome.Stopped?
      then task.(phase := Storing([ToLastStop(task.phase.outcome.info)]))
      else task.(phase := Over)
    case HandshakeDone(_, result) =>
      if task.phase.Starting?
      then task.(phase := Storing(if result.Some? then WritesOf(result.value) else [Wipe])) else task
    case _ => task
  }

  function Written(s: System, w: Write): System {
    s.(inner := Put(s.inner, w), resets := if w.Wipe? then s.resets + 1 else s.resets)
  }

  /** One section of the lock, or nothing if its handler or pump is not at that point. */
  function Step(s: System, op: Op): System {
    if op.Begin? then
      if Admits(op.kind, s.inner.state)
      then s.(tasks := s.tasks + [Task(op.kind, s.resets, None, OpeningPhase(op.kind))]) else s
    else if op.t >= |s.tasks| then s
    else
      var task := s.tasks[op.t];
      var w := Makes(s.inner, task, op);
      var u := if w.Some? then Written(s, w.value) else s;
      u.(tasks := s.tasks[op.t := Moved(s, task, op)])
  }

  function Run(s: System, ops: seq<Op>): System {
    if ops == [] then s else Step(Run(s, ops[..|ops| - 1]), ops[|ops| - 1])
  }

  // ----- what every reachable state keeps

  /** The generation a task holds is that of a session it found after its check. */
  predicate TaskGood(task: Task, resets: nat) {
    && task.since <= resets
    && (task.held.Some? ==> task.since <= task.held.value.at <= resets && task.held.value.g == task.held.value.at % TWO64)
    && (task.phase.Captured? || task.phase.Waiting? || task.phase.Returned? ==> task.kind.Resume? && task.held.Some?)
    && (task.phase.Connected? || task.phase.Connecting? || task.phase.Opening? ==> task.held.None? && !task.kind.Resume?)
    && (task.phase.Checked? ==> task.held.None?)
  }

  ghost predicate Good(s: System) {
    && s.inner.generation == s.resets % TWO64
    && forall t | 0 <= t < |s.tasks| :: TaskGood(s.tasks[t], s.resets)
  }

  lemma WrapNext(n: nat)
    ensures (n % TWO64 + 1) % TWO64 == (n + 1) % TWO64
  {
  }

  lemma PutKeepsGeneration(inner: Inner, w: Write)
    requires !w.Wipe?
    ensures Put(inner, w).generation == inner.generation
  {
  }

  lemma StepKeepsGood(s: System, op: Op)
    requires Good(s)
    ensures Good(Step(s, op)) && s.resets <= Step(s, op).resets <= s.resets + 1
  {
    if !op.Begin? && op.t < |s.tasks| {
      assert TaskGood(s.tasks[op.t], s.resets);
      var w := Makes(s.inner, s.tasks[op.t], op);
      if w.Some? {
        WrapNext(s.resets);
        if !w.value.Wipe? { PutKeepsGeneration(s.inner, w.value); }
      }
    }
  }

  lemma {:induction false} RunKeepsGood(s: System, ops: seq<Op>)
    requires Good(s)
    ensures Good(Run(s, ops)) && Run(s, ops).resets >= s.resets
  {
    if ops != [] {
      RunKeepsGood(s, ops[..|ops| - 1]);
      StepKeepsGood(Run(s, ops[..|ops| - 1]), ops[|ops| - 1]);
    }
  }

  // ----- a guarded write takes effect iff the generation came round

  lemma SameRemainder(at: nat, k: nat)
    ensures (at + k) % TWO64 == at % TWO64 <==> k % TWO64 == 0
  {
    var a, b := at % TWO64, k % TWO64;
    assert (at + k) % TWO64 == (a + b) % TWO64;
  }

  /** The guard of a task holds iff the resets since it read the generation are a multiple of 2^64. */
  lemma GuardHolds(s: System, t: nat)
    requires Good(s) && t < |s.tasks| && s.tasks[t].held.Some?
    ensures s.tasks[t].held.value.at <= s.resets
    ensures Matches(s.inner, s.tasks[t]) <==> (s.resets - s.tasks[t].held.value.at) % TWO64 == 0
  {
    var at := s.tasks[t].held.value.at;
    assert TaskGood(s.tasks[t], s.resets);
    SameRemainder(at, s.resets - at);
  }

  /** A generation once read is held unchanged, and the check it followed is not repeated. */
  lemma HoldsOn(s: System, op: Op, t: nat)
    requires Good(s) && t < |s.tasks|
    ensures t < |Step(s, op).tasks|
    ensures Step(s, op).tasks[t].since == s.tasks[t].since && Step(s, op).tasks[t].kind == s.tasks[t].kind
    ensures s.tasks[t].held.Some? ==> Step(s, op).tasks[t].held == s.tasks[t].held
  {
    assert TaskGood(s.tasks[t], s.resets);
  }

  lemma {:induction false} HoldsThroughout(s: System, ops: seq<Op>, t: nat)
    requires Good(s) && t < |s.tasks|
    ensures t < |Run(s, ops).tasks|
    ensures Run(s, ops).tasks[t].since == s.tasks[t].since && Run(s, ops).tasks[t].kind == s.tasks[t].kind
    ensures s.tasks[t].held.Some? ==> Run(s, ops).tasks[t].held == s.tasks[t].held
  {
    if ops != [] {
      HoldsThroughout(s, ops[..|ops| - 1], t);
      RunKeepsGood(s, ops[..|ops| - 1]);
      HoldsOn(Run(s, ops[..|ops| - 1]), ops[|ops| - 1], t);
    }
  }

  lemma InitialGood()
    ensures Good(INITIAL)
  {
  }

  lemma ReachableGood(ops: seq<Op>)
    ensures Good(Run(INITIAL, ops))
  {
    InitialGood();
    RunKeepsGood(INITIAL, ops);
  }

  /** The state in which task `t`, reached by `before`, has just read the generation. */
  function Reading(before: seq<Op>, t: nat): System {
    Step(Run(INITIAL, before), Capture(t))
  }

  predicate AboutToRead(s: System, t: nat) {
    t < |s.tasks| && (s.tasks[t].phase.Connected? || (s.tasks[t].phase.Checked? && s.tasks[t].kind.Resume?))
  }

  lemma CaptureReads(s: System, t: nat)
    requires Good(s) && AboutToRead(s, t)
    ensures var u := Step(s, Capture(t));
            && Good(u) && t < |u.tasks| && u.resets == s.resets && u.tasks[t].kind == s.tasks[t].kind
            && u.tasks[t].held == Some(Held(s.inner.generation, s.resets))
  {
    StepKeepsGood(s, Capture(t));
  }

  lemma HeldFrom(s: System, after: seq<Op>, t: nat)
    requires Good(s) && t < |s.tasks| && s.tasks[t].held.Some? && s.tasks[t].held.value.at == s.resets
    ensures var u := Run(s, after);
            && t < |u.tasks| && u.tasks[t].held.Some? && s.resets <= u.resets && u.tasks[t].kind == s.tasks[t].kind
            && (Matches(u.inner, u.tasks[t]) <==> (u.resets - s.resets) % TWO64 == 0)
  {
    HoldsThroughout(s, after, t);
    RunKeepsGood(s, after);
    GuardHolds(Run(s, after), t);
  }

  lemma ReadsNow(before: seq<Op>, after: seq<Op>, t: nat)
    requires AboutToRead(Run(INITIAL, before), t)
    ensures var s, u := Reading(before, t), Run(Reading(before, t), after);
            && t < |u.tasks| && u.tasks[t].held.Some? && s.resets <= u.resets
            && u.tasks[t].kind == Run(INITIAL, before).tasks[t].kind
            && (Matches(u.inner, u.tasks[t]) <==> (u.resets - s.resets) % TWO64 == 0)
  {
    InitialGood();
    RunKeepsGood(INITIAL, before);
    CaptureReads(Run(INITIAL, before), t);
    HeldFrom(Reading(before, t), after, t);
  }

  /**
   * Over every run: a `continue` or step that read the generation, and came back after any
   * steps of anyone, changes the session iff the resets in between are a multiple of 2^64.
   */
  lemma StopTakesEffectIff(before: seq<Op>, after: seq<Op>, t: nat)
    requires AboutToRead(Run(INITIAL, before), t) && Run(INITIAL, before).tasks[t].kind.Resume?
    requires t < |Run(Reading(before, t), after).tasks| && Run(Reading(before, t), after).tasks[t].phase.Returned?
    ensures var s, u := Reading(before, t), Run(Reading(before, t), after);
            Step(u, Finish(t)).inner ==
              if (u.resets - s.resets) % TWO64 == 0 then SettledBy(u.inner, u.tasks[t].phase.outcome) else u.inner
  {
    ReadsNow(before, after, t);
    FinishEffect(Run(Reading(before, t), after), t);
  }

  lemma FinishEffect(u: System, t: nat)
    requires t < |u.tasks| && u.tasks[t].phase.Returned?
    ensures Step(u, Finish(t)).inner == if Matches(u.inner, u.tasks[t]) then SettledBy(u.inner, u.tasks[t].phase.outcome) else u.inner
  {
  }

  /** What each outcome of a resume does to the state and the exit code. */
  function SettledBy(inner: Inner, outcome: StopOutcome): Inner {
    match outcome
    case Stopped(_) => inner.(state := State.Stopped)
    case Exited(Some(code)) => inner.(state := State.Terminated, exitCode := Some(code))
    case Exited(None) => inner.(state := State.Terminated)
    case Terminated => inner.(state := State.Terminated)
  }

  /** The same of the pump that a launch or attach spawns, for every termination it hears of. */
  lemma PumpTakesEffectIff(before: seq<Op>, after: seq<Op>, t: nat, code: Option<int>)
    requires AboutToRead(Run(INITIAL, before), t) && !Run(INITIAL, before).tasks[t].kind.Resume?
    ensures var s, u := Reading(before, t), Run(Reading(before, t), after);
            Step(u, PumpEnd(t, code)).inner ==
              if (u.resets - s.resets) % TWO64 != 0 then u.inner
              else if code.Some? then u.inner.(state := State.Terminated, exitCode := code)
              else u.inner.(state := State.Terminated)
  {
    ReadsNow(before, after, t);
    ConnectedIsStart(before, t);
  }

  lemma StartsStayStarts(s: System, op: Op)
    requires forall t | 0 <= t < |s.tasks| :: StartPhases(s.tasks[t])
    ensures forall t | 0 <= t < |Step(s, op).tasks| :: StartPhases(Step(s, op).tasks[t])
  {
  }

  predicate StartPhases(task: Task) {
    task.phase.Opening? || task.phase.Connecting? || task.phase.Connected? ==> task.kind.Launch? || task.kind.Attach?
  }

  lemma {:induction false} ConnectedIsStart(ops: seq<Op>, t: nat)
    requires t < |Run(INITIAL, ops).tasks|
    ensures StartPhases(Run(INITIAL, ops).tasks[t])
  {
    AllStartPhases(ops);
  }

  lemma {:induction false} AllStartPhases(ops: seq<Op>)
    ensures forall t | 0 <= t < |Run(INITIAL, ops).tasks| :: StartPhases(Run(INITIAL, ops).tasks[t])
  {
    if ops != [] {
      AllStartPhases(ops[..|ops| - 1]);
      StartsStayStarts(Run(INITIAL, ops[..|ops| - 1]), ops[|ops| - 1]);
    }
  }

  // ----- which writes are late

  /** The step makes a write for a session that was reset after its handler's check. */
  predicate Late(s: System, op: Op) {
    && !op.Begin? && op.t < |s.tasks| && Makes(s.inner, s.tasks[op.t], op).Some?
    && s.tasks[op.t].since != s.resets
  }

  lemma {:induction false} Began(ops: seq<Op>, t: nat) returns (b: nat)
    requires t < |Run(INITIAL, ops).tasks|
    ensures b < |ops| && ops[b] == Begin(Run(INITIAL, ops).tasks[t].kind)
    ensures Run(INITIAL, ops[..b]).resets == Run(INITIAL, ops).tasks[t].since && |Run(INITIAL, ops[..b]).tasks| == t
    ensures Admits(Run(INITIAL, ops).tasks[t].kind, Run(INITIAL, ops[..b]).inner.state)
  {
    var last := |ops| - 1;
    var s := Run(INITIAL, ops[..last]);
    if t < |s.tasks| {
      InitialGood();
      RunKeepsGood(INITIAL, ops[..last]);
      HoldsOn(s, ops[last], t);
      b := Began(ops[..last], t);
      assert ops[..last][..b] == ops[..b];
    } else {
      b := last;
    }
  }

  lemma {:induction false} CapturedAt(ops: seq<Op>, t: nat) returns (c: nat)
    requires t < |Run(INITIAL, ops).tasks| && Run(INITIAL, ops).tasks[t].held.Some?
    ensures c < |ops| && ops[c] == Capture(t)
    ensures Run(INITIAL, ops[..c]).resets == Run(INITIAL, ops).tasks[t].held.value.at
  {
    var last := |ops| - 1;
    var s := Run(INITIAL, ops[..last]);
    if t < |s.tasks| && s.tasks[t].held.Some? {
      InitialGood();
      RunKeepsGood(INITIAL, ops[..last]);
      HoldsOn(s, ops[last], t);
      c := CapturedAt(ops[..last], t);
      assert ops[..last][..c] == ops[..c];
    } else {
      c := last;
    }
  }

  /** An unguarded write is late iff a reset came between its handler's check and it. */
  lemma PlainLateIff(ops: seq<Op>, t: nat) returns (b: nat)
    requires t < |Run(INITIAL, ops).tasks| && NextWrite(Run(INITIAL, ops).tasks[t].phase).Some?
    ensures b < |ops| && ops[b].Begin? && |Run(INITIAL, ops[..b]).tasks| == t
    ensures Late(Run(INITIAL, ops), Plain(t)) <==> Run(INITIAL, ops[..b]).resets < Run(INITIAL, ops).resets
  {
    b := Began(ops, t);
    InitialGood();
    RunKeepsGood(INITIAL, ops);
    assert TaskGood(Run(INITIAL, ops).tasks[t], Run(INITIAL, ops).resets);
  }

  predicate Guarded(task: Task, op: Op) {
    (op.Finish? && task.phase.Returned?) || (op.PumpEnd? && IsPump(task))
  }

  /**
   * A guarded write is late iff a reset came after its handler's check and the resets since the
   * capture of the generation are a multiple of 2^64. With fewer resets than that: iff a reset
   * came between check and capture, and none since; the guard covers what follows the capture.
   */
  lemma GuardedLateIff(ops: seq<Op>, op: Op) returns (b: nat, c: nat)
    requires !op.Begin? && op.t < |Run(INITIAL, ops).tasks|
    requires Guarded(Run(INITIAL, ops).tasks[op.t], op)
    ensures b < |ops| && ops[b].Begin? && |Run(INITIAL, ops[..b]).tasks| == op.t
    ensures c < |ops| && ops[c] == Capture(op.t) && Run(INITIAL, ops[..c]).resets <= Run(INITIAL, ops).resets
    ensures Late(Run(INITIAL, ops), op) <==>
              && Run(INITIAL, ops[..b]).resets != Run(INITIAL, ops).resets
              && (Run(INITIAL, ops).resets - Run(INITIAL, ops[..c]).resets) % TWO64 == 0
  {
    ReachableGood(ops);
    GuardedHolds(Run(INITIAL, ops), op);
    b := Began(ops, op.t);
    c := CapturedAt(ops, op.t);
  }

  lemma GuardedHolds(s: System, op: Op)
    requires Good(s) && !op.Begin? && op.t < |s.tasks| && Guarded(s.tasks[op.t], op)
    ensures s.tasks[op.t].held.Some? && s.tasks[op.t].held.value.at <= s.resets
    ensures Late(s, op) <==> s.tasks[op.t].since != s.resets && (s.resets - s.tasks[op.t].held.value.at) % TWO64 == 0
  {
    assert TaskGood(s.tasks[op.t], s.resets);
    GuardHolds(s, op.t);
  }

  // ----- when earlier sessions matter

  /** A handler that vanished, with its pump. */
  function Dead(task: Task): Task {
    task.(held := None, phase := Over)
  }

  /** The same system, had every handler and pump that began before reset number `base` vanished. */
  function Survivors(s: System, base: nat): System {
    s.(tasks := seq(|s.tasks|, t requires 0 <= t < |s.tasks| =>
                     if s.tasks[t].since < base then Dead(s.tasks[t]) else s.tasks[t]))
  }

  /** The step makes a write for a session that ended before reset number `base`, and it changes something. */
  predicate Intrudes(s: System, base: nat, op: Op) {
    && !op.Begin? && op.t < |s.tasks| && s.tasks[op.t].since < base
    && var w := Makes(s.inner, s.tasks[op.t], op);
       w.Some? && Put(s.inner, w.value) != s.inner
  }

  /** Intrusions are late writes. */
  lemma IntrusionIsLate(s: System, base: nat, op: Op)
    requires Intrudes(s, base, op) && base <= s.resets
    ensures Late(s, op)
  {
  }

  /** The systems with and without the tasks of earlier sessions agree on everything else. */
  ghost predicate Alike(s: System, u: System, base: nat) {
    && s.inner == u.inner && s.resets == u.resets && |s.tasks| == |u.tasks| && base <= s.resets
    && forall t | 0 <= t < |s.tasks| :: u.tasks[t] == if s.tasks[t].since < base then Dead(s.tasks[t]) else s.tasks[t]
  }

  lemma DeadStays(s: System, task: Task, op: Op)
    requires task.phase.Over? && task.held.None? && !op.Begin?
    ensures Makes(s.inner, task, op).None? && Moved(s, task, op) == task
  {
  }

  lemma MovedKeepsOrigin(s: System, task: Task, op: Op)
    ensures Moved(s, task, op).since == task.since && Moved(s, task, op).kind == task.kind
  {
  }

  lemma MovedSame(s: System, u: System, task: Task, op: Op)
    requires s.inner == u.inner && s.resets == u.resets
    ensures Moved(s, task, op) == Moved(u, task, op)
  {
  }

  /** A reset is never without effect: the generation moves. */
  lemma WipeChanges(inner: Inner)
    ensures Put(inner, Wipe) != inner
  {
    assert (inner.generation + 1) % TWO64 != inner.generation;
  }

  /** A step of an earlier session's task does nothing in the system without it. */
  lemma OldStep(s: System, u: System, base: nat, op: Op)
    requires Alike(s, u, base) && !op.Begin? && op.t < |s.tasks| && s.tasks[op.t].since < base
    ensures Step(u, op) == u
    ensures !Intrudes(s, base, op) ==> Alike(Step(s, op), Step(u, op), base)
    ensures Intrudes(s, base, op) ==> Step(s, op).inner != s.inner
  {
    var task := s.tasks[op.t];
    DeadStays(u, u.tasks[op.t], op);
    assert u.tasks[op.t := u.tasks[op.t]] == u.tasks;
    MovedKeepsOrigin(s, task, op);
    if Makes(s.inner, task, op) == Some(Wipe) { WipeChanges(s.inner); }
  }

  lemma NewStep(s: System, u: System, base: nat, op: Op)
    requires Alike(s, u, base) && (op.Begin? || op.t >= |s.tasks| || s.tasks[op.t].since >= base)
    ensures Alike(Step(s, op), Step(u, op), base)
  {
    if !op.Begin? && op.t < |s.tasks| {
      MovedKeepsOrigin(s, s.tasks[op.t], op);
      MovedSame(s, u, s.tasks[op.t], op);
    }
  }

  lemma StepAlike(s: System, u: System, base: nat, op: Op)
    requires Alike(s, u, base)
    ensures !Intrudes(s, base, op) ==> Alike(Step(s, op), Step(u, op), base)
    ensures Intrudes(s, base, op) ==> Step(s, op).inner != Step(u, op).inner
  {
    if !op.Begin? && op.t < |s.tasks| && s.tasks[op.t].since < base {
      OldStep(s, u, base, op);
    } else {
      NewStep(s, u, base, op);
    }
  }

  lemma RunNext(s: System, ops: seq<Op>, k: nat)
    requires k < |ops|
    ensures Run(s, ops[..k + 1]) == Step(Run(s, ops[..k]), ops[k])
  {
    assert ops[..k + 1][..k] == ops[..k];
  }

  ghost predicate NoIntrusion(s: System, base: nat, ops: seq<Op>, n: nat)
    requires n <= |ops|
  {
    forall k | 0 <= k < n :: !IntrudesAt(s, base, ops, k)
  }

  /** Step k of the run is an intrusion. */
  ghost predicate IntrudesAt(s: System, base: nat, ops: seq<Op>, k: nat)
    requires k < |ops|
  {
    Intrudes(Run(s, ops[..k]), base, ops[k])
  }

  lemma {:induction false} RunAlike(s: System, u: System, base: nat, ops: seq<Op>, k: nat)
    requires Alike(s, u, base) && k <= |ops| && NoIntrusion(s, base, ops, k)
    ensures Alike(Run(s, ops[..k]), Run(u, ops[..k]), base)
  {
    if k > 0 {
      RunAlike(s, u, base, ops, k - 1);
      RunNext(s, ops, k - 1);
      RunNext(u, ops, k - 1);
      assert !IntrudesAt(s, base, ops, k - 1);
      StepAlike(Run(s, ops[..k - 1]), Run(u, ops[..k - 1]), base, ops[k - 1]);
    }
  }

  ghost predicate SameSession(s: System, u: System, ops: seq<Op>) {
    forall k | 0 <= k <= |ops| :: SameAt(s, u, ops, k)
  }

  /** After k steps both runs have the same session. */
  ghost predicate SameAt(s: System, u: System, ops: seq<Op>, k: nat)
    requires k <= |ops|
  {
    Run(u, ops[..k]).inner == Run(s, ops[..k]).inner
  }

  lemma SameSoNoIntrusion(s: System, u: System, base: nat, op: Op)
    requires Alike(s, u, base) && Step(s, op).inner == Step(u, op).inner
    ensures !Intrudes(s, base, op)
  {
    StepAlike(s, u, base, op);
  }

  /** The first intrusion is where the two runs part. */
  lemma {:induction false} PartsAtIntrusion(s: System, u: System, base: nat, ops: seq<Op>, n: nat)
    requires Alike(s, u, base) && n <= |ops| && SameSession(s, u, ops)
    ensures NoIntrusion(s, base, ops, n)
  {
    if n > 0 {
      var k := n - 1;
      PartsAtIntrusion(s, u, base, ops, k);
      RunAlike(s, u, base, ops, k);
      SameNext(s, u, ops, k);
      SameSoNoIntrusion(Run(s, ops[..k]), Run(u, ops[..k]), base, ops[k]);
    }
  }

  lemma SameNext(s: System, u: System, ops: seq<Op>, k: nat)
    requires k < |ops| && SameSession(s, u, ops)
    ensures Step(Run(s, ops[..k]), ops[k]).inner == Step(Run(u, ops[..k]), ops[k]).inner
  {
    RunNext(s, ops, k);
    RunNext(u, ops, k);
    assert SameAt(s, u, ops, k + 1);
  }

  lemma SurvivorsAlike(s: System)
    ensures Alike(s, Survivors(s, s.resets), s.resets)
  {
  }

  /**
   * When a session is independent of those before it: from any point of any run on, the session
   * is at every step what it would be had every handler and pump of earlier sessions vanished
   * there, if and only if none of them makes a write that changes something.
   */
  lemma EarlierSessionsDoNotMatterIff(before: seq<Op>, after: seq<Op>)
    ensures var s := Run(INITIAL, before);
            SameSession(s, Survivors(s, s.resets), after) <==> NoIntrusion(s, s.resets, after, |after|)
  {
    var s := Run(INITIAL, before);
    var u := Survivors(s, s.resets);
    SurvivorsAlike(s);
    if NoIntrusion(s, s.resets, after, |after|) {
      forall k | 0 <= k <= |after| ensures SameAt(s, u, after, k) {
        RunAlike(s, u, s.resets, after, k);
      }
    }
    if SameSession(s, u, after) {
      PartsAtIntrusion(s, u, s.resets, after, |after|);
    }
  }

  // ----- the stop cache

  /** A stop whose guard held, with its cache write still to come. */
  predicate Caching(task: Task, info: StopInfo) {
    task.phase == Storing([ToLastStop(info)])
  }

  /**
   * A stop whose guard held is cached by a separate step. It lands in a session it does not
   * belong to if and only if a reset came between the two.
   */
  lemma StopCacheLeaksIff(before: seq<Op>, mid: seq<Op>, t: nat, info: StopInfo)
    requires var s := Run(INITIAL, before);
             && t < |s.tasks| && s.tasks[t].phase == Returned(StopOutcome.Stopped(info)) && s.tasks[t].since == s.resets
    requires var u := Run(Step(Run(INITIAL, before), Finish(t)), mid); t < |u.tasks| && Caching(u.tasks[t], info)
    ensures var s, u := Run(INITIAL, before), Run(Step(Run(INITIAL, before), Finish(t)), mid);
            && Step(u, Plain(t)).inner == u.inner.(lastStopped := Some(info))
            && (Late(u, Plain(t)) <==> u.resets > s.resets)
  {
    var s := Run(INITIAL, before);
    InitialGood();
    RunKeepsGood(INITIAL, before);
    StepKeepsGood(s, Finish(t));
    FinishKeepsCount(s, t);
    HoldsOn(s, Finish(t), t);
    HoldsThroughout(Step(s, Finish(t)), mid, t);
    RunKeepsGood(Step(s, Finish(t)), mid);
  }

  lemma FinishKeepsCount(s: System, t: nat)
    ensures Step(s, Finish(t)).resets == s.resets
  {
  }

  // ----- runs that show late writes

  lemma {:induction false} RunAppend(s: System, a: seq<Op>, b: seq<Op>)
    ensures Run(s, a + b) == Run(Run(s, a), b)
    decreases |b|
  {
    if b == [] {
      assert a + b == a;
    } else {
      assert (a + b)[..|a + b| - 1] == a + b[..|b| - 1];
      RunAppend(s, a, b[..|b| - 1]);
    }
  }

  lemma RunOne(s: System, a: Op)
    ensures Run(s, [a]) == Step(s, a)
  {
    assert [a][..0] == [];
  }

  lemma RunTwo(s: System, a: Op, b: Op)
    ensures Run(s, [a, b]) == Step(Step(s, a), b)
  {
    RunOne(s, a);
    assert [a, b][..1] == [a];
  }

  lemma RunThree(s: System, a: Op, b: Op, c: Op)
    ensures Run(s, [a, b, c]) == Step(Step(Step(s, a), b), c)
  {
    RunTwo(s, a, b);
    assert [a, b, c][..2] == [a, b];
  }

  /** A launch up to the point where its adapter is connected. */
  const OPEN: seq<Op> := [Begin(Launch), Plain(0), Plain(0)]

  const READ: Option<Held> := Some(Held(0, 0))

  lemma Opens()
    ensures Run(INITIAL, OPEN) == System(Fresh(0).(state := Configuring), 0, [Task(Launch, 0, None, Connecting)])
  {
    RunThree(INITIAL, Begin(Launch), Plain(0), Plain(0));
    var s1 := Step(INITIAL, Begin(Launch));
    var todo := [ToState(Configuring), Flush];
    assert s1 == System(Fresh(0), 0, [Task(Launch, 0, None, Opening(todo))]);
    var s2 := Step(s1, Plain(0));
    assert todo[1..] == [Flush];
    assert s2 == System(Fresh(0).(state := Configuring), 0, [Task(Launch, 0, None, Opening([Flush]))]);
    assert s2.inner.Flushed() == s2.inner;
  }

  /** And on to its entry stop. */
  function ToEntry(entry: StopInfo): seq<Op> {
    [Connect(0, true), Capture(0), HandshakeDone(0, Some(Handshake("a", None, EntryStop(entry))))]
    + [Plain(0), Plain(0), Plain(0)]
  }

  function AtEntry(entry: StopInfo): Inner {
    Fresh(0).(state := State.Stopped, program := "a", lastStopped := Some(entry))
  }

  const LAUNCHED: Task := Task(Launch, 0, READ, Over)

  lemma ShakesHands(entry: StopInfo)
    ensures Run(System(Fresh(0).(state := Configuring), 0, [Task(Launch, 0, None, Connecting)]),
                [Connect(0, true), Capture(0), HandshakeDone(0, Some(Handshake("a", None, EntryStop(entry))))])
         == System(Fresh(0).(state := Configuring), 0,
                   [Task(Launch, 0, READ, Storing([ToProgram("a"), ToState(State.Stopped), ToLastStop(entry)]))])
  {
    var s := System(Fresh(0).(state := Configuring), 0, [Task(Launch, 0, None, Connecting)]);
    var h := Handshake("a", None, EntryStop(entry));
    RunThree(s, Connect(0, true), Capture(0), HandshakeDone(0, Some(h)));
    var s1 := Step(s, Connect(0, true));
    assert s1 == s.(tasks := [Task(Launch, 0, None, Connected)]);
    var s2 := Step(s1, Capture(0));
    assert s2 == s.(tasks := [Task(Launch, 0, READ, Starting)]);
    assert WritesOf(h) == [ToProgram("a"), ToState(State.Stopped), ToLastStop(entry)];
  }

  lemma StoresEntry(entry: StopInfo)
    ensures Run(System(Fresh(0).(state := Configuring), 0,
                       [Task(Launch, 0, READ, Storing([ToProgram("a"), ToState(State.Stopped), ToLastStop(entry)]))]),
                [Plain(0), Plain(0), Plain(0)])
         == System(AtEntry(entry), 0, [LAUNCHED])
  {
    var todo := [ToProgram("a"), ToState(State.Stopped), ToLastStop(entry)];
    var s := System(Fresh(0).(state := Configuring), 0, [Task(Launch, 0, READ, Storing(todo))]);
    RunThree(s, Plain(0), Plain(0), Plain(0));
    var s1 := Step(s, Plain(0));
    assert s1 == System(Fresh(0).(state := Configuring, program := "a"), 0, [Task(Launch, 0, READ, Storing(todo[1..]))]);
    var s2 := Step(s1, Plain(0));
    assert todo[1..][1..] == todo[2..];
    assert s2 == System(Fresh(0).(state := State.Stopped, program := "a"), 0, [Task(Launch, 0, READ, Storing(todo[2..]))]);
    assert Step(s2, Plain(0)) == System(AtEntry(entry), 0, [LAUNCHED]);
  }

  lemma ReachesEntry(entry: StopInfo)
    ensures Run(INITIAL, OPEN + ToEntry(entry)) == System(AtEntry(entry), 0, [LAUNCHED])
  {
    var a := [Connect(0, true), Capture(0), HandshakeDone(0, Some(Handshake("a", None, EntryStop(entry))))];
    var b := [Plain(0), Plain(0), Plain(0)];
    Opens();
    RunAppend(INITIAL, OPEN, ToEntry(entry));
    RunAppend(Run(INITIAL, OPEN), a, b);
    ShakesHands(entry);
    StoresEntry(entry);
  }

  /** A resume whose guard holds, a disconnect, and the cache write. */
  function LeakOps(stop: StopInfo): seq<Op> {
    [Begin(Resume), Capture(1), Plain(1)] + [Answer(1, Some(StopOutcome.Stopped(stop))), Finish(1), Begin(Disconnect)]
    + [Plain(2), Plain(1)]
  }

  lemma LeakResumes(entry: StopInfo)
    ensures Run(System(AtEntry(entry), 0, [LAUNCHED]), [Begin(Resume), Capture(1), Plain(1)])
         == System(AtEntry(entry).(state := Running), 0, [LAUNCHED, Task(Resume, 0, READ, Waiting)])
  {
    var s := System(AtEntry(entry), 0, [LAUNCHED]);
    RunThree(s, Begin(Resume), Capture(1), Plain(1));
    var s1 := Step(s, Begin(Resume));
    assert s1 == s.(tasks := [LAUNCHED, Task(Resume, 0, None, Checked)]);
    var s2 := Step(s1, Capture(1));
    assert s2 == s.(tasks := [LAUNCHED, Task(Resume, 0, READ, Captured)]);
  }

  lemma LeakStops(entry: StopInfo, stop: StopInfo)
    ensures Run(System(AtEntry(entry).(state := Running), 0, [LAUNCHED, Task(Resume, 0, READ, Waiting)]),
                [Answer(1, Some(StopOutcome.Stopped(stop))), Finish(1), Begin(Disconnect)])
         == System(AtEntry(entry), 0, [LAUNCHED, Task(Resume, 0, READ, Storing([ToLastStop(stop)])),
                                       Task(Disconnect, 0, None, Storing([Wipe]))])
  {
    var s := System(AtEntry(entry).(state := Running), 0, [LAUNCHED, Task(Resume, 0, READ, Waiting)]);
    var answer := Answer(1, Some(StopOutcome.Stopped(stop)));
    RunThree(s, answer, Finish(1), Begin(Disconnect));
    var s1 := Step(s, answer);
    assert s1 == s.(tasks := [LAUNCHED, Task(Resume, 0, READ, Returned(StopOutcome.Stopped(stop)))]);
    var s2 := Step(s1, Finish(1));
    assert s2 == System(AtEntry(entry), 0, [LAUNCHED, Task(Resume, 0, READ, Storing([ToLastStop(stop)]))]);
  }

  lemma LeakEnds(entry: StopInfo, stop: StopInfo)
    ensures var s := System(AtEntry(entry), 0, [LAUNCHED, Task(Resume, 0, READ, Storing([ToLastStop(stop)])),
                                                Task(Disconnect, 0, None, Storing([Wipe]))]);
            var u := Run(s, [Plain(2), Plain(1)]);
            u.inner == Fresh(1).(lastStopped := Some(stop))
  {
    var s := System(AtEntry(entry), 0, [LAUNCHED, Task(Resume, 0, READ, Storing([ToLastStop(stop)])),
                                        Task(Disconnect, 0, None, Storing([Wipe]))]);
    RunTwo(s, Plain(2), Plain(1));
    var s1 := Step(s, Plain(2));
    assert s1.inner == Fresh(1) && s1.resets == 1;
    assert s1.tasks[1] == s.tasks[1];
  }

  /** It can happen: the reset, idle session then holds the stop of the session before it. */
  lemma StopCacheLeaks(entry: StopInfo, stop: StopInfo)
    ensures var s := Run(INITIAL, OPEN + ToEntry(entry) + LeakOps(stop));
            s.inner == Fresh(1).(lastStopped := Some(stop))
  {
    ReachesEntry(entry);
    RunAppend(INITIAL, OPEN + ToEntry(entry), LeakOps(stop));
    var a, b := [Begin(Resume), Capture(1), Plain(1)], [Answer(1, Some(StopOutcome.Stopped(stop))), Finish(1), Begin(Disconnect)];
    var s := Run(INITIAL, OPEN + ToEntry(entry));
    RunAppend(s, a + b, [Plain(2), Plain(1)]);
    RunAppend(s, a, b);
    LeakResumes(entry);
    LeakStops(entry, stop);
    LeakEnds(entry, stop);
  }

  /** A resume that was checked before a disconnect and reads the generation after it. */
  const GAP: seq<Op> := [Begin(Resume), Begin(Disconnect), Plain(2)] + [Capture(1), Plain(1)]

  lemma GapOpens(entry: StopInfo)
    ensures var u := Run(System(AtEntry(entry), 0, [LAUNCHED]), [Begin(Resume), Begin(Disconnect), Plain(2)]);
            && u.inner == Fresh(1) && u.resets == 1 && |u.tasks| == 3
            && u.tasks[1] == Task(Resume, 0, None, Checked)
  {
    var s := System(AtEntry(entry), 0, [LAUNCHED]);
    RunThree(s, Begin(Resume), Begin(Disconnect), Plain(2));
    var s1 := Step(s, Begin(Resume));
    assert s1 == s.(tasks := [LAUNCHED, Task(Resume, 0, None, Checked)]);
    var s2 := Step(s1, Begin(Disconnect));
    assert s2 == s.(tasks := [LAUNCHED, Task(Resume, 0, None, Checked), Task(Disconnect, 0, None, Storing([Wipe]))]);
  }

  /** The guard does not cover the gap before the capture: a disconnected session turns running. */
  lemma GapRevivesSession(entry: StopInfo)
    ensures var s := Run(INITIAL, OPEN + ToEntry(entry) + GAP);
            s.inner == Fresh(1).(state := Running)
  {
    ReachesEntry(entry);
    RunAppend(INITIAL, OPEN + ToEntry(entry), GAP);
    var s := Run(INITIAL, OPEN + ToEntry(entry));
    RunAppend(s, [Begin(Resume), Begin(Disconnect), Plain(2)], [Capture(1), Plain(1)]);
    GapOpens(entry);
    GapEnds(Run(s, [Begin(Resume), Begin(Disconnect), Plain(2)]));
  }

  lemma GapEnds(u: System)
    requires u.inner == Fresh(1) && u.resets == 1 && |u.tasks| == 3
    requires u.tasks[1] == Task(Resume, 0, None, Checked)
    ensures var v := Run(u, [Capture(1), Plain(1)]); v.inner == Fresh(1).(state := Running)
  {
    RunTwo(u, Capture(1), Plain(1));
    var v := Step(u, Capture(1));
    assert v == u.(tasks := u.tasks[1 := Task(Resume, 0, Some(Held(1, 1)), Captured)]);
  }

  /** A launch, disconnected and followed by another launch, whose handshake then fails. */
  const CLEAN_UP: seq<Op> :=
    [Connect(0, true), Capture(0), Begin(Disconnect)] + [Plain(1), Begin(Launch), Plain(2)] + [HandshakeDone(0, None), Plain(0)]

  lemma CleanUpDisconnects()
    ensures Run(System(Fresh(0).(state := Configuring), 0, [Task(Launch, 0, None, Connecting)]),
                [Connect(0, true), Capture(0), Begin(Disconnect)])
         == System(Fresh(0).(state := Configuring), 0,
                   [Task(Launch, 0, READ, Starting), Task(Disconnect, 0, None, Storing([Wipe]))])
  {
    var s := System(Fresh(0).(state := Configuring), 0, [Task(Launch, 0, None, Connecting)]);
    RunThree(s, Connect(0, true), Capture(0), Begin(Disconnect));
    var s1 := Step(s, Connect(0, true));
    assert s1 == s.(tasks := [Task(Launch, 0, None, Connected)]);
    var s2 := Step(s1, Capture(0));
    assert s2 == s.(tasks := [Task(Launch, 0, READ, Starting)]);
  }

  lemma CleanUpRelaunches()
    ensures var u := Run(System(Fresh(0).(state := Configuring), 0,
                                [Task(Launch, 0, READ, Starting), Task(Disconnect, 0, None, Storing([Wipe]))]),
                         [Plain(1), Begin(Launch), Plain(2)]);
            && u.inner == Fresh(1).(state := Configuring) && u.resets == 1 && |u.tasks| == 3
            && u.tasks[0] == Task(Launch, 0, READ, Starting) && u.tasks[2] == Task(Launch, 1, None, Opening([Flush]))
  {
    var s := System(Fresh(0).(state := Configuring), 0,
                    [Task(Launch, 0, READ, Starting), Task(Disconnect, 0, None, Storing([Wipe]))]);
    RunThree(s, Plain(1), Begin(Launch), Plain(2));
    var s1 := Step(s, Plain(1));
    assert s1 == System(Fresh(1), 1, [Task(Launch, 0, READ, Starting), Task(Disconnect, 0, None, Over)]);
    var todo := [ToState(Configuring), Flush];
    var s2 := Step(s1, Begin(Launch));
    assert s2 == s1.(tasks := s1.tasks + [Task(Launch, 1, None, Opening(todo))]);
    assert todo[1..] == [Flush];
  }

  /** The clean-up of an abandoned launch wipes the session that came after it. */
  lemma CleanUpWipesNextSession()
    ensures var s := Run(INITIAL, OPEN + CLEAN_UP);
            && s.inner == Fresh(2)
            && |s.tasks| == 3 && s.tasks[2] == Task(Launch, 1, None, Opening([Flush]))
  {
    Opens();
    RunAppend(INITIAL, OPEN, CLEAN_UP);
    var a, b := [Connect(0, true), Capture(0), Begin(Disconnect)], [Plain(1), Begin(Launch), Plain(2)];
    var s := Run(INITIAL, OPEN);
    RunAppend(s, a + b, [HandshakeDone(0, None), Plain(0)]);
    RunAppend(s, a, b);
    CleanUpDisconnects();
    CleanUpRelaunches();
    var u := Run(s, a + b);
    RunTwo(u, HandshakeDone(0, None), Plain(0));
    CleanUpWipes(u);
  }

  lemma CleanUpWipes(u: System)
    requires u.inner == Fresh(1).(state := Configuring) && u.resets == 1 && |u.tasks| == 3
    requires u.tasks[0] == Task(Launch, 0, READ, Starting)
    ensures var v := Step(Step(u, HandshakeDone(0, None)), Plain(0));
            v.inner == Fresh(2) && |v.tasks| == 3 && v.tasks[2] == u.tasks[2]
  {
    var v := Step(u, HandshakeDone(0, None));
    assert v == u.(tasks := u.tasks[0 := Task(Launch, 0, READ, Storing([Wipe]))]);
  }
}
