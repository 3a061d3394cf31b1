/**
 * The read loop (`dap-client/src/read_loop.rs`) and the state it shares with every caller.
 * Callers, stop-waiter registrations and the reader's own lock sections interleave freely.
 */
module ReadLoops {
  import opened Types
  import opened Clients
  import W = StopWaiters

  /** The sender side of the loop's two channels; `fired` is what the terminated channel carried. */
  datatype Sinks = Sinks(
    output: seq<OutputChunk>, armed: bool, fired: seq<Option<int>>, lastExit: Option<int>)
  {
    function FireTerminated(): Sinks {
      if armed then Sinks(output, false, fired + [lastExit], lastExit) else this
    }
  }

  const QUIET_SINKS := Sinks([], true, [], None)

  /** Where the reader task is; after `Reading` the phases of `recover` follow in order. */
  datatype Reader = Reading | Handing | Closing | Failing | Firing | Finished

  /**
   * `read`, `stopLog`, `atDrain` and `atCancel` are history: the messages dispatched, the
   * calls made on the stop waiter, the client when recovery drained it, and the length of
   * `stopLog` when recovery cancelled the waiter.
   */
  datatype System = System(
    client: Client, stop: W.Waiters, latch: Latch, sinks: Sinks, reader: Reader,
    read: seq<DapMessage>, stopLog: seq<W.Op>, atDrain: Option<Client>, atCancel: Option<nat>)

  const STARTED := System(FRESH_CLIENT, W.EMPTY_WAITERS, UNFIRED_LATCH, QUIET_SINKS, Reading, [], [], None, None)

  datatype SysOp =
    | Caller(op: Op)
    | RegisterStop
    | Park
    | Read(message: DapMessage)
    | ReadError
    | Hand
    | DrainAll(order: seq<int>)
    | CancelStop
    | FireTerminated

  predicate IsCallerOp(op: Op) {
    !op.Take? && !op.Drain? && !op.Deliver?
  }

  ghost predicate SysEnabled(s: System, op: SysOp) {
    match op
    case Caller(o) => IsCallerOp(o) && Enabled(s.client, o)
    case RegisterStop => true
    case Park => !s.latch.fired
    case Read(_) => s.reader.Reading?
    case ReadError => s.reader.Reading?
    case Hand => (s.reader.Handing? || s.reader.Failing?) && s.client.taken != []
    case DrainAll(order) => s.reader.Closing? && ListsKeys(order, s.client.pending)
    case CancelStop => s.reader.Failing? && s.client.taken == []
    case FireTerminated => s.reader.Firing?
  }

  function StopCall(s: System, op: W.Op): System
    requires s.stop.WellFormed()
  {
    s.(stop := W.Apply(s.stop, op), stopLog := s.stopLog + [op])
  }

  /** What one message does to the two channels. */
  function Receive(sinks: Sinks, message: DapMessage): Sinks {
    if !message.EventMessage? then sinks
    else match message.event
      case OutputEvent(category, text) => sinks.(output := sinks.output + [OutputChunk(category, text)])
      case ExitedEvent(code) => sinks.(lastExit := Some(code))
      case TerminatedEvent => sinks.FireTerminated()
      case _ => sinks
  }

  /** `dispatch_event`. Sinks belong to the reader alone, so their update joins the next section. */
  function DispatchEvent(s: System, event: Event): System
    requires s.stop.WellFormed()
  {
    var t := s.(sinks := Receive(s.sinks, EventMessage(event)));
    match event
    case Initialized => t.(latch := t.latch.Signal())
    case StoppedEvent(body) => StopCall(t, W.Produce(Stopped(W.StopInfoFromEvent(body))))
    case ExitedEvent(code) => StopCall(t, W.Produce(Exited(Some(code))))
    case TerminatedEvent => StopCall(t, W.Produce(Terminated))
    case OutputEvent(_, _) => t
    case Informational => t
  }

  ghost function Dispatch(s: System, message: DapMessage): System
    requires WellFormed(s.client) && s.stop.WellFormed()
  {
    match message
    case ResponseMessage(response) =>
      s.(client := Step(s.client, Take(response)),
         reader := if response.requestSeq in s.client.pending then Handing else s.reader)
    case EventMessage(event) => DispatchEvent(s, event)
    case Other => s
  }

  ghost function SysStep(s: System, op: SysOp): (r: System)
    requires WellFormed(s.client) && s.stop.WellFormed() && SysEnabled(s, op)
    ensures WellFormed(r.client) && r.stop.WellFormed()
  {
    match op
    case Caller(o) => s.(client := Step(s.client, o))
    case RegisterStop => StopCall(s, W.Register)
    case Park => s.(latch := s.latch.Park())
    case Read(message) => Dispatch(s, message).(read := s.read + [message])
    case ReadError => s.(reader := Closing)
    case Hand =>
      var d := Step(s.client, Deliver(0));
      s.(client := d, reader := if s.reader.Handing? && d.taken == [] then Reading else s.reader)
    case DrainAll(order) =>
      s.(client := Step(s.client, Drain(order, Closed)), reader := Failing, atDrain := Some(s.client))
    case CancelStop => StopCall(s, W.Produce(Terminated)).(reader := Firing, atCancel := Some(|s.stopLog|))
    case FireTerminated => s.(sinks := s.sinks.FireTerminated(), reader := Finished)
  }

  ghost function SysRun(ops: seq<SysOp>): (r: Option<System>)
    ensures r.Some? ==> WellFormed(r.value.client) && r.value.stop.WellFormed()
  {
    if ops == [] then Some(STARTED)
    else
      var s := SysRun(ops[..|ops| - 1]);
      var op := ops[|ops| - 1];
      if s.Some? && SysEnabled(s.value, op) then Some(SysStep(s.value, op)) else None
  }

  // ----- what the message sequence alone determines

  function Outputs(messages: seq<DapMessage>): seq<OutputChunk> {
    if messages == [] then []
    else
      var m := messages[|messages| - 1];
      Outputs(messages[..|messages| - 1]) +
      (if m.EventMessage? && m.event.OutputEvent? then [OutputChunk(m.event.category, m.event.output)] else [])
  }

  function LastExit(messages: seq<DapMessage>): Option<int> {
    if messages == [] then None
    else
      var m := messages[|messages| - 1];
      if m.EventMessage? && m.event.ExitedEvent? then Some(m.event.exitCode)
      else LastExit(messages[..|messages| - 1])
  }

  /** Index of the first `terminated` event, or the length when there is none. */
  function FirstTerminated(messages: seq<DapMessage>): (i: nat)
    ensures i <= |messages|
    ensures i < |messages| ==> messages[i] == EventMessage(TerminatedEvent)
    ensures forall j | 0 <= j < i :: messages[j] != EventMessage(TerminatedEvent)
  {
    if messages == [] then 0
    else if messages[0] == EventMessage(TerminatedEvent) then 0
    else 1 + FirstTerminated(messages[1..])
  }

  /** What the terminated channel carries, given the messages and whether recovery is over. */
  function TerminatedSignal(messages: seq<DapMessage>, over: bool): seq<Option<int>> {
    var i := FirstTerminated(messages);
    if i < |messages| then [LastExit(messages[..i])]
    else if over then [LastExit(messages)]
    else []
  }

  lemma {:induction false} FirstTerminatedExtends(messages: seq<DapMessage>, m: DapMessage)
    ensures var i := FirstTerminated(messages);
            FirstTerminated(messages + [m]) ==
            if i < |messages| || m == EventMessage(TerminatedEvent) then i else i + 1
  {
    var all := messages + [m];
    var i, j := FirstTerminated(messages), FirstTerminated(all);
    assert forall x | 0 <= x < |messages| :: all[x] == messages[x];
    var expected := if i < |messages| || m == EventMessage(TerminatedEvent) then i else i + 1;
    assert expected < |all| ==> all[expected] == EventMessage(TerminatedEvent);
    assert forall x | 0 <= x < expected :: all[x] != EventMessage(TerminatedEvent);
  }

  // ----- the system invariant

  predicate RegisteredIn(c: Client, k: nat) {
    k < |c.calls| && !c.calls[k].phase.Numbered?
  }

  /** Calls registered in `then` stay registered and are out of the pending map for good. */
  predicate OutOfMap(then_: Client, now: Client) {
    && |then_.calls| <= |now.calls|
    && forall k | 0 <= k < |then_.calls| && RegisteredIn(then_, k) ::
         RegisteredIn(now, k) && !InPending(now, k)
  }

  predicate SinksFollow(sinks: Sinks, read: seq<DapMessage>, over: bool) {
    && sinks.output == Outputs(read)
    && sinks.lastExit == LastExit(read)
    && sinks.fired == TerminatedSignal(read, over)
    && (sinks.armed <==> sinks.fired == [])
  }

  ghost predicate ChannelsGood(s: System) {
    SinksFollow(s.sinks, s.read, s.reader.Finished?)
  }

  ghost predicate RecoveryGood(s: System) {
    && (s.reader.Handing? ==> |s.client.taken| == 1)
    && (!s.reader.Handing? && !s.reader.Failing? ==> s.client.taken == [])
    && (s.reader.Reading? || s.reader.Handing? || s.reader.Closing? ==> s.atDrain.None? && s.atCancel.None?)
    && (s.reader.Failing? ==> s.atDrain.Some? && s.atCancel.None?)
    && (s.reader.Firing? || s.reader.Finished? ==> s.atDrain.Some? && s.atCancel.Some?)
    && (s.atDrain.Some? ==> OutOfMap(s.atDrain.value, s.client))
    && (s.atCancel.Some? ==> s.atCancel.value < |s.stopLog| && s.stopLog[s.atCancel.value] == W.Produce(Terminated))
  }

  ghost predicate SysGood(s: System) {
    && Good(s.client)
    && s.stop.WellFormed() && W.Meets(s.stop, s.stopLog)
    && (s.latch.fired <==> EventMessage(Initialized) in s.read)
    && ChannelsGood(s)
    && RecoveryGood(s)
  }

  /** One more message, seen by the three functions of the stream. */
  lemma {:induction false} MessageExtends(read: seq<DapMessage>, m: DapMessage)
    ensures Outputs(read + [m]) ==
            if m.EventMessage? && m.event.OutputEvent?
            then Outputs(read) + [OutputChunk(m.event.category, m.event.output)] else Outputs(read)
    ensures LastExit(read + [m]) ==
            if m.EventMessage? && m.event.ExitedEvent? then Some(m.event.exitCode) else LastExit(read)
    ensures TerminatedSignal(read + [m], false) ==
            if TerminatedSignal(read, false) == [] && m == EventMessage(TerminatedEvent)
            then [LastExit(read)] else TerminatedSignal(read, false)
  {
    assert (read + [m])[..|read|] == read;
    FirstTerminatedExtends(read, m);
    var i := FirstTerminated(read);
    assert (read + [m])[..i] == read[..i];
    assert read[..|read|] == read;
  }

  lemma {:induction false} ReceiveFollows(sinks: Sinks, read: seq<DapMessage>, m: DapMessage)
    requires SinksFollow(sinks, read, false)
    ensures SinksFollow(Receive(sinks, m), read + [m], false)
  {
    MessageExtends(read, m);
  }

  lemma {:induction false} FireFollows(sinks: Sinks, read: seq<DapMessage>)
    requires SinksFollow(sinks, read, false)
    ensures SinksFollow(sinks.FireTerminated(), read, true) && |sinks.FireTerminated().fired| == 1
  {
  }

  lemma DispatchShape(s: System, message: DapMessage)
    requires s.reader.Reading? && s.stop.WellFormed() && WellFormed(s.client)
    ensures var t := SysStep(s, Read(message));
            && t.sinks == Receive(s.sinks, message) && t.read == s.read + [message] && !t.reader.Finished?
            && (t.latch.fired <==> s.latch.fired || message == EventMessage(Initialized))
  {
  }

  lemma {:induction false} DispatchKeepsChannels(s: System, t: System, message: DapMessage)
    requires ChannelsGood(s) && !s.reader.Finished?
    requires t.sinks == Receive(s.sinks, message) && t.read == s.read + [message] && !t.reader.Finished?
    ensures ChannelsGood(t)
  {
    ReceiveFollows(s.sinks, s.read, message);
  }

  lemma CallerKeepsOutOfMap(then_: Client, c: Client, op: Op)
    requires WellFormed(c) && Enabled(c, op) && IsCallerOp(op) && OutOfMap(then_, c)
    requires |c.calls| <= TWO64 && Good(c)
    ensures OutOfMap(then_, Step(c, op)) && Step(c, op).taken == c.taken
  {
    NoCollision(c);
    if op.Register? { RegisterKeepsGood(c, op.k); }
    if op.WriteFail? || (op.Drop? && c.calls[op.k].guarded) {
      RemoveKeepsGood(c, op.k, if op.WriteFail? then WriteFailed else Dropped);
    }
  }

  lemma DrainTakesOutOfMap(c: Client, order: seq<int>)
    requires WellFormed(c) && ListsKeys(order, c.pending)
    ensures OutOfMap(c, Step(c, Drain(order, Closed)))
  {
  }

  /** A step that only changes the client's side of the system. */
  lemma ClientSideKeepsGood(s: System, t: System)
    requires SysGood(s) && Good(t.client)
    requires t == s.(client := t.client, reader := t.reader, atDrain := t.atDrain)
    requires !s.reader.Finished? && !t.reader.Finished? && RecoveryGood(t)
    ensures SysGood(t)
  {
  }

  lemma CallerKeepsGood(s: System, o: Op)
    requires SysGood(s) && SysEnabled(s, Caller(o)) && |SysStep(s, Caller(o)).client.calls| <= TWO64
    ensures SysGood(SysStep(s, Caller(o)))
  {
    StepKeepsGood(s.client, o);
    assert |s.client.calls| <= |Step(s.client, o).calls|;
    CallerKeepsOutOfMap(if s.atDrain.Some? then s.atDrain.value else FRESH_CLIENT, s.client, o);
  }

  lemma StopCallKeepsGood(s: System, op: W.Op)
    requires SysGood(s)
    ensures SysGood(StopCall(s, op))
  {
    W.ApplyMeets(s.stop, s.stopLog, op);
  }

  lemma DispatchKeepsStop(s: System, message: DapMessage)
    requires SysGood(s) && s.reader.Reading?
    ensures var t := SysStep(s, Read(message)); W.Meets(t.stop, t.stopLog)
  {
    var t := SysStep(s, Read(message));
    if t.stopLog != s.stopLog {
      var op := t.stopLog[|s.stopLog|];
      W.ApplyMeets(s.stop, s.stopLog, op);
    }
  }

  lemma ReadKeepsGood(s: System, message: DapMessage)
    requires SysGood(s) && s.reader.Reading? && |s.client.calls| <= TWO64
    ensures SysGood(SysStep(s, Read(message)))
  {
    DispatchShape(s, message);
    DispatchKeepsChannels(s, SysStep(s, Read(message)), message);
    DispatchKeepsStop(s, message);
    DispatchKeepsClient(s, message);
  }

  lemma DispatchKeepsClient(s: System, message: DapMessage)
    requires Good(s.client) && s.stop.WellFormed() && RecoveryGood(s) && s.reader.Reading? && |s.client.calls| <= TWO64
    ensures var t := SysStep(s, Read(message)); Good(t.client) && RecoveryGood(t)
  {
    if message.ResponseMessage? { TakeKeepsGood(s.client, message.response); }
  }

  lemma SysStepKeepsGood(s: System, op: SysOp)
    requires SysGood(s) && SysEnabled(s, op)
    requires |SysStep(s, op).client.calls| <= TWO64
    ensures SysGood(SysStep(s, op))
  {
    match op
    case Caller(o) => CallerKeepsGood(s, o);
    case RegisterStop => StopCallKeepsGood(s, W.Register);
    case Park => ParkKeepsGood(s);
    case Read(message) => ReadKeepsGood(s, message);
    case ReadError => ReadErrorKeepsGood(s);
    case Hand => HandKeepsGood(s);
    case DrainAll(order) => DrainAllKeepsGood(s, order);
    case CancelStop => CancelStopKeepsGood(s);
    case FireTerminated => FireKeepsGood(s);
  }

  lemma ParkKeepsGood(s: System)
    requires SysGood(s) && SysEnabled(s, Park)
    ensures SysGood(SysStep(s, Park))
  {
    var t := SysStep(s, Park);
    assert t == s.(latch := t.latch) && t.latch.fired == s.latch.fired;
  }

  lemma ReadErrorKeepsGood(s: System)
    requires SysGood(s) && SysEnabled(s, ReadError)
    ensures SysGood(SysStep(s, ReadError))
  {
    ClientSideKeepsGood(s, SysStep(s, ReadError));
  }

  lemma HandKeepsGood(s: System)
    requires SysGood(s) && SysEnabled(s, Hand)
    ensures SysGood(SysStep(s, Hand))
  {
    DeliverKeepsGood(s.client, 0);
    HandKeepsRecovery(s);
    ClientSideKeepsGood(s, SysStep(s, Hand));
  }

  lemma HandKeepsRecovery(s: System)
    requires WellFormed(s.client) && s.stop.WellFormed() && RecoveryGood(s) && SysEnabled(s, Hand)
    ensures RecoveryGood(SysStep(s, Hand))
  {
  }

  lemma DrainAllKeepsGood(s: System, order: seq<int>)
    requires SysGood(s) && SysEnabled(s, DrainAll(order)) && |s.client.calls| <= TWO64
    ensures SysGood(SysStep(s, DrainAll(order)))
  {
    DrainKeepsGood(s.client, order, Closed);
    DrainTakesOutOfMap(s.client, order);
    ClientSideKeepsGood(s, SysStep(s, DrainAll(order)));
  }

  lemma CancelStopKeepsGood(s: System)
    requires SysGood(s) && SysEnabled(s, CancelStop)
    ensures SysGood(SysStep(s, CancelStop))
  {
    StopCallKeepsGood(s, W.Produce(Terminated));
    var t := StopCall(s, W.Produce(Terminated));
    assert SysStep(s, CancelStop) == t.(reader := Firing, atCancel := Some(|s.stopLog|));
  }

  lemma FireKeepsGood(s: System)
    requires SysGood(s) && SysEnabled(s, FireTerminated)
    ensures SysGood(SysStep(s, FireTerminated))
  {
    FireFollows(s.sinks, s.read);
  }

  lemma CallsGrow(s: System, op: SysOp)
    requires WellFormed(s.client) && s.stop.WellFormed() && SysEnabled(s, op)
    ensures |s.client.calls| <= |SysStep(s, op).client.calls|
  {
  }

  lemma StartedGood()
    ensures SysGood(STARTED)
  {
  }

  lemma {:induction false} SysRunGood(ops: seq<SysOp>)
    requires SysRun(ops).Some? && |SysRun(ops).value.client.calls| <= TWO64
    ensures SysGood(SysRun(ops).value)
  {
    if ops == [] {
      StartedGood();
    } else {
      var s := SysRun(ops[..|ops| - 1]).value;
      CallsGrow(s, ops[|ops| - 1]);
      SysRunGood(ops[..|ops| - 1]);
      SysStepKeepsGood(s, ops[|ops| - 1]);
    }
  }

  // ----- what the drained calls get

  predicate HeldClosed(c: Client, k: nat) {
    exists i :: 0 <= i < |c.taken| && c.taken[i] == Held(k, Err(Closed))
  }

  /** The call was told that the connection closed, or is about to be. */
  predicate ToldClosed(c: Client, k: nat) {
    k < |c.calls| && (c.calls[k].sent == [Err(Closed)] || (c.calls[k].sent == [] && HeldClosed(c, k)))
  }

  ghost predicate DrainedTold(s: System) {
    s.atDrain.Some? ==>
      forall k | 0 <= k < |s.atDrain.value.calls| && InPending(s.atDrain.value, k) :: ToldClosed(s.client, k)
  }

  lemma DrainTells(c: Client, order: seq<int>, k: nat)
    requires Good(c) && ListsKeys(order, c.pending) && k < |c.calls| && InPending(c, k)
    ensures ToldClosed(Step(c, Drain(order, Closed)), k)
  {
    DrainTakes(c, order, Closed);
    assert EntryGood(c, SeqOf(k)) && CallGood(c, k);
    var d := Step(c, Drain(order, Closed));
    var i :| 0 <= i < |order| && order[i] == SeqOf(k);
    assert d.taken[|c.taken| + i] == Held(k, Err(Closed));
  }

  lemma HandTells(c: Client, k: nat)
    requires WellFormed(c) && c.taken != [] && ToldClosed(c, k)
    requires forall i, j | 0 <= i < j < |c.taken| :: c.taken[i].call != c.taken[j].call
    requires forall i | 0 <= i < |c.taken| && c.taken[i].call == k :: c.calls[k].sent == []
    ensures ToldClosed(Step(c, Deliver(0)), k)
  {
    var d := Step(c, Deliver(0));
    if c.calls[k].sent == [] {
      var i :| 0 <= i < |c.taken| && c.taken[i] == Held(k, Err(Closed));
      if i == 0 {
        assert d.calls[k].sent == [] + [Err(Closed)];
      } else {
        assert d.taken[i - 1] == c.taken[i];
      }
    }
  }

  lemma CallerTells(c: Client, op: Op, k: nat)
    requires WellFormed(c) && Enabled(c, op) && IsCallerOp(op) && ToldClosed(c, k)
    ensures ToldClosed(Step(c, op), k)
  {
    var d := Step(c, op);
    assert d.taken == c.taken && d.calls[k].sent == c.calls[k].sent;
  }

  lemma HeldUnsent(c: Client, k: nat)
    requires Good(c) && k < |c.calls|
    ensures forall i | 0 <= i < |c.taken| && c.taken[i].call == k :: c.calls[k].sent == []
  {
    forall i | 0 <= i < |c.taken| && c.taken[i].call == k ensures c.calls[k].sent == [] {
      assert HeldGood(c, i) && CallGood(c, k);
    }
  }

  lemma StepTells(s: System, op: SysOp)
    requires SysGood(s) && SysEnabled(s, op) && DrainedTold(s)
    ensures DrainedTold(SysStep(s, op))
  {
    match op
    case DrainAll(order) =>
      forall k | 0 <= k < |s.client.calls| && InPending(s.client, k) ensures ToldClosed(SysStep(s, op).client, k) {
        DrainTells(s.client, order, k);
      }
    case Hand =>
      if s.atDrain.Some? {
        forall k | 0 <= k < |s.atDrain.value.calls| && InPending(s.atDrain.value, k) ensures ToldClosed(SysStep(s, op).client, k) {
          HeldUnsent(s.client, k);
          HandTells(s.client, k);
        }
      }
    case Caller(o) =>
      if s.atDrain.Some? {
        forall k | 0 <= k < |s.atDrain.value.calls| && InPending(s.atDrain.value, k) ensures ToldClosed(SysStep(s, op).client, k) {
          CallerTells(s.client, o, k);
        }
      }
    case Read(m) =>
      ReadBeforeDrain(s, m);
    case _ =>
  }

  lemma ReadBeforeDrain(s: System, m: DapMessage)
    requires SysGood(s) && SysEnabled(s, Read(m))
    ensures SysStep(s, Read(m)).atDrain.None?
  {
  }

  lemma {:induction false} RunTells(ops: seq<SysOp>)
    requires SysRun(ops).Some? && |SysRun(ops).value.client.calls| <= TWO64
    ensures SysGood(SysRun(ops).value) && DrainedTold(SysRun(ops).value)
  {
    SysRunGood(ops);
    if ops != [] {
      var s := SysRun(ops[..|ops| - 1]).value;
      CallsGrow(s, ops[|ops| - 1]);
      RunTells(ops[..|ops| - 1]);
      StepTells(s, ops[|ops| - 1]);
    }
  }

  // ----- main results

  /**
   * Crash recovery resolves everyone: once `recover` is over, in every interleaving, each
   * request registered before the drain has its one reply or gave itself up, those pending at the
   * drain that the connection closed, and each stop
   * registration made before the cancel has its one outcome (or was replaced by a later one).
   */
  lemma {:induction false} RecoveryResolvesEveryone(ops: seq<SysOp>)
    requires SysRun(ops).Some? && |SysRun(ops).value.client.calls| <= TWO64
    requires SysRun(ops).value.reader.Finished?
    ensures var s := SysRun(ops).value;
            && s.atDrain.Some? && s.atCancel.Some?
            && (forall k | 0 <= k < |s.atDrain.value.calls| && RegisteredIn(s.atDrain.value, k) ::
                  k < |s.client.calls| && (|s.client.calls[k].sent| == 1 || GaveUp(s.client.calls[k])))
            && (forall k | 0 <= k < |s.atDrain.value.calls| && InPending(s.atDrain.value, k) ::
                  k < |s.client.calls| && s.client.calls[k].sent == [Err(Closed)])
    ensures var s := SysRun(ops).value;
            && s.atCancel.value <= |s.stopLog|
            && forall i | 0 <= i < W.Registers(s.stopLog[..s.atCancel.value]) ::
                 W.Observed(s.stop, i) ==
                 var before := W.FateOf(s.stopLog[..s.atCancel.value], i);
                 if before == W.Waiting then W.Got(Terminated) else before
  {
    RunTells(ops);
    var s := SysRun(ops).value;
    forall k | 0 <= k < |s.atDrain.value.calls| && InPending(s.atDrain.value, k)
      ensures k < |s.client.calls| && s.client.calls[k].sent == [Err(Closed)]
    {
      assert ToldClosed(s.client, k);
    }
    forall k | 0 <= k < |s.atDrain.value.calls| && RegisteredIn(s.atDrain.value, k)
      ensures k < |s.client.calls| && (|s.client.calls[k].sent| == 1 || GaveUp(s.client.calls[k]))
    {
      assert RegisteredIn(s.client, k) && CallGood(s.client, k);
    }
    var n := s.atCancel.value;
    forall i | 0 <= i < W.Registers(s.stopLog[..n])
      ensures W.Observed(s.stop, i) ==
              var before := W.FateOf(s.stopLog[..n], i);
              if before == W.Waiting then W.Got(Terminated) else before
    {
      PrefixFate(s.stopLog, n, i);
    }
  }

  /** Later calls do not change the position of a registration. */
  lemma {:induction false} PrefixPosition(log: seq<W.Op>, n: nat, i: nat)
    requires n <= |log| && i < W.Registers(log[..n])
    ensures i < W.Registers(log)
    ensures W.PositionOf(log, i) == W.PositionOf(log[..n], i)
    decreases |log| - n
  {
    if n == |log| {
      assert log[..n] == log;
    } else {
      assert log[..n + 1] == log[..n] + [log[n]];
      W.PositionExtends(log[..n], log[n], i);
      PrefixPosition(log, n + 1, i);
    }
  }

  lemma {:induction false} PrefixFate(log: seq<W.Op>, n: nat, i: nat)
    requires n < |log| && i < W.Registers(log[..n]) && log[n].Produce?
    ensures i < W.Registers(log)
    ensures W.FateOf(log, i) ==
            var before := W.FateOf(log[..n], i);
            if before == W.Waiting then W.Got(log[n].outcome) else before
  {
    PrefixPosition(log, n, i);
    var p := W.PositionOf(log, i);
    if p + 1 < n { assert log[..n][p + 1] == log[p + 1]; }
  }

  /**
   * The loop's channels are a function of the messages dispatched: outputs in order, and one
   * terminated signal, at the first `terminated` event or at the end, with the last exit code
   * seen before that point.
   */
  lemma {:induction false} ChannelsFollowMessages(ops: seq<SysOp>)
    requires SysRun(ops).Some? && |SysRun(ops).value.client.calls| <= TWO64
    ensures var s := SysRun(ops).value;
            && s.sinks.output == Outputs(s.read)
            && s.sinks.fired == TerminatedSignal(s.read, s.reader.Finished?)
            && |s.sinks.fired| <= 1
            && (s.latch.fired <==> EventMessage(Initialized) in s.read)
  {
    SysRunGood(ops);
  }

  // ----- the reader itself, run with no caller in between

  /** The first response in the stream to request `q`. */
  function FirstReply(messages: seq<DapMessage>, q: int): Option<Response> {
    if messages == [] then None
    else
      var earlier := FirstReply(messages[..|messages| - 1], q);
      var m := messages[|messages| - 1];
      if earlier.Some? then earlier
      else if m.ResponseMessage? && m.response.requestSeq == q then Some(m.response)
      else None
  }

  /** What a caller waiting on `q` is told by a stream that then ends. */
  function Verdict(messages: seq<DapMessage>, q: int): Reply {
    var r := FirstReply(messages, q);
    if r.Some? then Ok(r.value) else Err(Closed)
  }

  /** The stop-waiter calls a stream makes. */
  function StopCalls(messages: seq<DapMessage>): seq<W.Op> {
    if messages == [] then []
    else
      var m := messages[|messages| - 1];
      StopCalls(messages[..|messages| - 1]) + if m.EventMessage? then StopCallsOf(m.event) else []
  }

  function StopCallsOf(event: Event): seq<W.Op> {
    match event
    case StoppedEvent(body) => [W.Produce(Stopped(W.StopInfoFromEvent(body)))]
    case ExitedEvent(code) => [W.Produce(Exited(Some(code)))]
    case TerminatedEvent => [W.Produce(Terminated)]
    case _ => []
  }

  lemma StopCallsSingle(m: DapMessage)
    ensures StopCalls([m]) == if m.EventMessage? then StopCallsOf(m.event) else []
  {
    assert [m][..0] == [];
  }

  /** The effect of one message on the client: the addressed call, if pending, is answered. */
  ghost predicate AnsweredBy(before: Client, after: Client, message: DapMessage) {
    && |after.calls| == |before.calls| && after.taken == before.taken
    && (!message.ResponseMessage? ==> after == before)
    && (message.ResponseMessage? ==>
          var q := message.response.requestSeq;
          && after.pending == before.pending - {q}
          && forall k | 0 <= k < |before.calls| ::
               after.calls[k] ==
               if q in before.pending && before.pending[q] == k
               then before.calls[k].(sent := [Ok(message.response)], senderLive := false)
               else before.calls[k])
  }

  /** Each call pending at the start still waits, or has the first response addressed to it. */
  ghost predicate Settled(start: Client, now: Client, messages: seq<DapMessage>) {
    && |now.calls| == |start.calls|
    && forall k | 0 <= k < |start.calls| && InPending(start, k) ::
         var r := FirstReply(messages, SeqOf(k));
         && (r.None? ==> InPending(now, k) && now.calls[k].sent == [])
         && (r.Some? ==> !InPending(now, k) && now.calls[k].sent == [Ok(r.value)])
  }

  ghost predicate AllFailed(before: Client, after: Client) {
    && |after.calls| == |before.calls|
    && forall k | 0 <= k < |after.calls| ::
         after.calls[k] == if InPending(before, k) then FailedCall(before.calls[k], Closed) else before.calls[k]
  }

  lemma {:induction false} SettledStart(start: Client)
    requires Good(start)
    ensures Settled(start, start, [])
  {
    forall k | 0 <= k < |start.calls| && InPending(start, k) ensures start.calls[k].sent == [] {
      assert EntryGood(start, SeqOf(k)) && CallGood(start, k);
    }
  }

  lemma {:induction false} SettledEnd(start: Client, before: Client, after: Client, messages: seq<DapMessage>)
    requires Settled(start, before, messages) && AllFailed(before, after)
    ensures forall k | 0 <= k < |start.calls| && InPending(start, k) ::
              after.calls[k].sent == [Verdict(messages, SeqOf(k))]
  {
  }

  lemma {:induction false} SettledStep(start: Client, before: Client, after: Client, messages: seq<DapMessage>, m: DapMessage)
    requires Settled(start, before, messages) && AnsweredBy(before, after, m) && Good(before)
    ensures Settled(start, after, messages + [m])
  {
    assert (messages + [m])[..|messages|] == messages;
    forall k | 0 <= k < |start.calls| && InPending(start, k)
      ensures var r := FirstReply(messages + [m], SeqOf(k));
              && (r.None? ==> InPending(after, k) && after.calls[k].sent == [])
              && (r.Some? ==> !InPending(after, k) && after.calls[k].sent == [Ok(r.value)])
    {
      if m.ResponseMessage? && m.response.requestSeq in before.pending {
        assert EntryGood(before, m.response.requestSeq);
      }
    }
  }

  lemma OneMore(messages: seq<DapMessage>, n: nat)
    requires n < |messages|
    ensures messages[..n + 1] == messages[..n] + [messages[n]]
  {
  }

  lemma AllRead(messages: seq<DapMessage>)
    ensures messages[..|messages|] == messages
  {
  }

  lemma {:induction false} StopCallsExtend(messages: seq<DapMessage>, m: DapMessage)
    ensures StopCalls(messages + [m]) == StopCalls(messages) + StopCalls([m])
  {
    assert (messages + [m])[..|messages|] == messages;
    assert [m][..0] == [];
  }

  class ReadLoop {
    const shared: Shared
    const waiter: W.StopWaiter
    var latchFired: bool
    var sinks: Sinks
    var closed: bool

    ghost predicate Valid()
      reads this, shared, waiter
    {
      shared.Valid() && waiter.Valid()
    }

    ghost predicate Channels(read: seq<DapMessage>)
      reads this
    {
      SinksFollow(sinks, read, closed) && (latchFired <==> EventMessage(Initialized) in read)
    }

    constructor (shared: Shared, waiter: W.StopWaiter)
      requires shared.Valid() && waiter.Valid()
      ensures Valid() && Channels([]) && this.shared == shared && this.waiter == waiter && !closed
    {
      this.shared, this.waiter := shared, waiter;
      latchFired, sinks, closed := false, QUIET_SINKS, false;
    }

    method DispatchOne(message: DapMessage, ghost read: seq<DapMessage>)
      requires Valid() && Channels(read) && !closed
      modifies this, shared, waiter
      ensures Valid() && Channels(read + [message]) && !closed
      ensures waiter.history == old(waiter.history) + StopCalls([message])
      ensures AnsweredBy(old(shared.View()), shared.View(), message)
    {
      ReceiveFollows(sinks, read, message);
      StopCallsSingle(message);
      match message {
        case ResponseMessage(response) =>
          var found := shared.DispatchResponse(response);
          assert !found ==> old(shared.pending) - {response.requestSeq} == old(shared.pending);
        case EventMessage(event) => DispatchEventOne(event);
        case Other =>
      }
    }

    /** `dispatch_event`: the sinks first, then the latch or the stop waiter. */
    method DispatchEventOne(event: Event)
      requires Valid()
      modifies this, waiter
      ensures Valid() && closed == old(closed) && sinks == Receive(old(sinks), EventMessage(event))
      ensures latchFired <==> old(latchFired) || event.Initialized?
      ensures waiter.history == old(waiter.history) + StopCallsOf(event)
    {
      ghost var received := Receive(sinks, EventMessage(event));
      match event {
        case Initialized => latchFired := true;
        case StoppedEvent(body) => waiter.Deliver(body);
        case OutputEvent(category, text) => sinks := sinks.(output := sinks.output + [OutputChunk(category, text)]);
        case ExitedEvent(code) => sinks := sinks.(lastExit := Some(code)); waiter.DeliverExit(code);
        case TerminatedEvent => sinks := sinks.FireTerminated(); waiter.Cancel();
        case Informational =>
      }
      assert sinks == received;
    }

    /** `recover`: record the close, fail every pending request, cancel the waiter, signal. */
    method Recover(ghost read: seq<DapMessage>)
      requires Valid() && Channels(read) && !closed
      modifies this, shared, waiter
      ensures Valid() && Channels(read) && closed && |sinks.fired| == 1
      ensures shared.pending == map[] && |shared.calls| == old(|shared.calls|)
      ensures AllFailed(old(shared.View()), shared.View())
      ensures waiter.history == old(waiter.history) + [W.Produce(Terminated)]
    {
      FireFollows(sinks, read);
      closed := true;
      var order := shared.DrainOrder();
      shared.CancelAllPending(order, Closed);
      waiter.Cancel();
      sinks := sinks.FireTerminated();
    }

    ghost predicate Progressed(start: Client, log: seq<W.Op>, read: seq<DapMessage>)
      reads this, shared, waiter
    {
      && Valid() && Channels(read) && !closed
      && waiter.history == log + StopCalls(read)
      && Settled(start, shared.View(), read)
    }

    method DispatchNext(message: DapMessage, ghost start: Client, ghost log: seq<W.Op>, ghost read: seq<DapMessage>)
      requires Progressed(start, log, read)
      modifies this, shared, waiter
      ensures Progressed(start, log, read + [message])
    {
      ghost var before := shared.View();
      DispatchOne(message, read);
      SettledStep(start, before, shared.View(), read, message);
      StopCallsExtend(read, message);
    }

    /** The dispatching half of `run`. */
    method DispatchAll(incoming: seq<DapMessage>)
      requires Valid() && Channels([]) && !closed
      modifies this, shared, waiter
      ensures Progressed(old(shared.View()), old(waiter.history), incoming)
    {
      ghost var start, log := shared.View(), waiter.history;
      NothingRead(incoming);
      for n := 0 to |incoming|
        invariant Progressed(start, log, incoming[..n])
      {
        OneMore(incoming, n);
        DispatchNext(incoming[n], start, log, incoming[..n]);
      }
      AllRead(incoming);
    }

    lemma NothingRead(incoming: seq<DapMessage>)
      requires Valid() && Channels([]) && !closed
      ensures Progressed(shared.View(), waiter.history, incoming[..0])
    {
      SettledStart(shared.View());
      assert incoming[..0] == [] && StopCalls([]) == [] && waiter.history + [] == waiter.history;
    }

    /**
     * `run` over a stream that ends: every request pending at the start got the first
     * response addressed to it or else `Closed`, and both channels follow the messages.
     */
    method Run(incoming: seq<DapMessage>)
      requires Valid() && Channels([]) && !closed
      modifies this, shared, waiter
      ensures Valid() && closed && shared.pending == map[]
      ensures sinks.output == Outputs(incoming) && sinks.fired == TerminatedSignal(incoming, true)
      ensures waiter.history == old(waiter.history) + StopCalls(incoming) + [W.Produce(Terminated)]
      ensures |shared.calls| == old(|shared.calls|)
      ensures forall k | 0 <= k < |shared.calls| && InPending(old(shared.View()), k) ::
                shared.calls[k].sent == [Verdict(incoming, SeqOf(k))]
    {
      ghost var start := shared.View();
      DispatchAll(incoming);
      ghost var before := shared.View();
      Recover(incoming);
      SettledEnd(start, before, shared.View(), incoming);
    }
  }
}
