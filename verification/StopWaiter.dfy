/** The single-slot stop waiter (`dap-client/src/stop_waiter.rs`). */
module StopWaiters {
  import opened Types

  /** A registration's one-shot channel: what was sent on it, and whether its sender lives. */
  datatype Registration = Registration(got: seq<StopOutcome>, senderLive: bool)

  /** The slot names the registration whose sender it holds; registrations are numbered in order. */
  datatype Waiters = Waiters(slot: Option<nat>, regs: seq<Registration>) {
    predicate WellFormed() {
      slot.Some? ==> slot.value < |regs|
    }
  }

  const EMPTY_WAITERS := Waiters(None, [])

  datatype Op = Register | Produce(outcome: StopOutcome)

  /** The sender in the slot, if any, is dropped unsent. */
  function DropSlot(w: Waiters): Waiters
    requires w.WellFormed()
  {
    if w.slot.None? then w
    else Waiters(None, w.regs[w.slot.value := w.regs[w.slot.value].(senderLive := false)])
  }

  function Apply(w: Waiters, op: Op): (r: Waiters)
    requires w.WellFormed()
    ensures r.WellFormed()
  {
    match op
    case Register =>
      Waiters(Some(|w.regs|), DropSlot(w).regs + [Registration([], true)])
    case Produce(outcome) =>
      if w.slot.None? then w
      else
        var i := w.slot.value;
        Waiters(None, w.regs[i := Registration(w.regs[i].got + [outcome], false)])
  }

  function Run(ops: seq<Op>): (r: Waiters)
    ensures r.WellFormed()
  {
    if ops == [] then EMPTY_WAITERS else Apply(Run(ops[..|ops| - 1]), ops[|ops| - 1])
  }

  // ----- trace specification: what a history promises each registration

  datatype Fate = Unregistered | Waiting | Got(outcome: StopOutcome) | Orphaned

  function Registers(ops: seq<Op>): nat {
    if ops == [] then 0
    else Registers(ops[..|ops| - 1]) + (if ops[|ops| - 1].Register? then 1 else 0)
  }

  /** Position in the history of registration `i`. */
  function PositionOf(ops: seq<Op>, i: nat): (p: nat)
    requires i < Registers(ops)
    ensures p < |ops| && ops[p].Register? && Registers(ops[..p]) == i
  {
    var last := |ops| - 1;
    if ops[last].Register? && Registers(ops[..last]) == i then last
    else
      var p := PositionOf(ops[..last], i);
      assert ops[..last][..p] == ops[..p];
      p
  }

  /** The first producer call at or after `from` and before the next registration decides. */
  function Window(ops: seq<Op>, from: nat): Fate
    requires from <= |ops|
  {
    if from == |ops| then Waiting
    else if ops[from].Register? then Orphaned
    else Got(ops[from].outcome)
  }

  function FateOf(ops: seq<Op>, i: nat): Fate {
    if i < Registers(ops) then Window(ops, PositionOf(ops, i) + 1) else Unregistered
  }

  function Observed(w: Waiters, i: nat): Fate {
    if i >= |w.regs| then Unregistered
    else if w.regs[i].got != [] then Got(w.regs[i].got[0])
    else if w.regs[i].senderLive then Waiting
    else Orphaned
  }

  lemma {:induction false} PositionExtends(ops: seq<Op>, op: Op, i: nat)
    requires i < Registers(ops)
    ensures Registers(ops + [op]) == Registers(ops) + (if op.Register? then 1 else 0)
    ensures PositionOf(ops + [op], i) == PositionOf(ops, i)
  {
    assert (ops + [op])[..|ops|] == ops;
  }

  ghost predicate Meets(w: Waiters, ops: seq<Op>) {
    && |w.regs| == Registers(ops)
    && (forall i | 0 <= i < |w.regs| ::
          && |w.regs[i].got| <= 1
          && (w.regs[i].got != [] ==> !w.regs[i].senderLive)
          && Observed(w, i) == FateOf(ops, i))
    && (forall i | 0 <= i < |w.regs| :: w.regs[i].senderLive <==> w.slot == Some(i))
  }

  /** One more call keeps the specification, whichever call it is. */
  lemma {:induction false} ApplyMeets(w: Waiters, ops: seq<Op>, op: Op)
    requires w.WellFormed() && Meets(w, ops)
    ensures Meets(Apply(w, op), ops + [op])
  {
    var w', ops' := Apply(w, op), ops + [op];
    assert ops'[..|ops|] == ops;
    assert |w'.regs| == Registers(ops');
    forall i | 0 <= i < |w'.regs|
      ensures Observed(w', i) == FateOf(ops', i)
    {
      if i < |w.regs| {
        PositionExtends(ops, op, i);
        var p := PositionOf(ops, i);
        assert Observed(w, i) == Window(ops, p + 1);
        assert ops'[..|ops|] == ops;
        if p + 1 < |ops| {
          assert ops'[p + 1] == ops[p + 1];
        }
      } else {
        assert PositionOf(ops', i) == |ops|;
      }
    }
  }

  /** For every history, each registration holds exactly what the trace specification promises. */
  lemma {:induction false} RunMeetsTrace(ops: seq<Op>)
    ensures Meets(Run(ops), ops)
  {
    if ops != [] {
      var last := |ops| - 1;
      RunMeetsTrace(ops[..last]);
      ApplyMeets(Run(ops[..last]), ops[..last], ops[last]);
      assert ops[..last] + [ops[last]] == ops;
    }
  }

  /** `stop_info_from_event`. */
  function StopInfoFromEvent(body: StoppedBody): (r: StopInfo)
    ensures r.reason == body.reason && r.threadId == body.threadId
    ensures r.description == body.description && r.hitBreakpointIds == body.hitBreakpointIds
  {
    StopInfo(body.reason, body.threadId, body.description, body.hitBreakpointIds)
  }

  /**
   * The waiter as the program updates it. `regs` stands for the one-shot channels handed
   * out so far; `history` records the calls, so that `Valid` is the trace specification.
   */
  class StopWaiter {
    var slot: Option<nat>
    var regs: seq<Registration>
    ghost var history: seq<Op>

    ghost function View(): Waiters
      reads this
    {
      Waiters(slot, regs)
    }

    ghost predicate Valid()
      reads this
    {
      View().WellFormed() && Meets(View(), history)
    }

    constructor ()
      ensures Valid() && View() == EMPTY_WAITERS && history == []
    {
      slot, regs, history := None, [], [];
    }

    method RegisterWaiter() returns (receiver: nat)
      requires Valid()
      modifies this
      ensures Valid() && history == old(history) + [Register]
      ensures View() == Apply(old(View()), Register)
      ensures receiver == old(|regs|) && FateOf(history, receiver) == Waiting
    {
      ApplyMeets(View(), history, Register);
      receiver := |regs|;
      if slot.Some? {
        regs := regs[slot.value := regs[slot.value].(senderLive := false)];
      }
      regs := regs + [Registration([], true)];
      slot := Some(receiver);
      history := history + [Register];
      assert Observed(View(), receiver) == Waiting;
    }

    /** The common single-shot send: take the slot, then send. */
    method Send(outcome: StopOutcome)
      requires Valid()
      modifies this
      ensures Valid() && history == old(history) + [Produce(outcome)]
      ensures View() == Apply(old(View()), Produce(outcome)) && slot == None
    {
      ApplyMeets(View(), history, Produce(outcome));
      var sender := slot;
      slot := None;
      if sender.Some? {
        var i := sender.value;
        regs := regs[i := Registration(regs[i].got + [outcome], false)];
      }
      history := history + [Produce(outcome)];
    }

    method Deliver(body: StoppedBody)
      requires Valid()
      modifies this
      ensures Valid() && history == old(history) + [Produce(Stopped(StopInfoFromEvent(body)))]
      ensures View() == Apply(old(View()), Produce(Stopped(StopInfoFromEvent(body))))
    {
      Send(Stopped(StopInfoFromEvent(body)));
    }

    method DeliverExit(code: int)
      requires Valid()
      modifies this
      ensures Valid() && history == old(history) + [Produce(Exited(Some(code)))]
      ensures View() == Apply(old(View()), Produce(Exited(Some(code))))
    {
      Send(Exited(Some(code)));
    }

    method Cancel()
      requires Valid()
      modifies this
      ensures Valid() && history == old(history) + [Produce(Terminated)]
      ensures View() == Apply(old(View()), Produce(Terminated))
    {
      Send(Terminated);
    }
  }
}
