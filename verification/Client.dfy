/**
 * Request/response correlation (`dap-client/src/client.rs`): the sequence counter, the
 * pending map of one-shot senders, and every call that is or was in flight.
 * Each step is one lock-held section or one await of the program; steps of different
 * calls and of the read loop interleave freely.
 */
module Clients {
  import opened Types

  const TWO63: int := 0x8000_0000_0000_0000

  function Wrap64(n: int): int {
    var m := n % TWO64;
    if m < TWO63 then m else m - TWO64
  }

  /** The sequence number of the k-th call (counting from 0): a pre-incremented `AtomicI64`. */
  function SeqOf(k: nat): int {
    Wrap64(k + 1)
  }

  datatype Phase =
    | Numbered            // next_seq returned
    | Registered          // pending entry inserted; the frame is being written
    | Written             // the frame is out; the receiver is awaited
    | Returned(reply: Reply)
    | WriteFailed
    | Dropped

  /** `guarded` is true for `send` (AbortGuard) and false for `send_async`. */
  datatype Call = Call(guarded: bool, phase: Phase, sent: seq<Reply>, senderLive: bool)

  /** A sender that left the map, with what its holder is about to send. */
  datatype Held = Held(call: nat, reply: Reply)

  datatype Client = Client(calls: seq<Call>, pending: map<int, nat>, taken: seq<Held>)

  const FRESH_CLIENT := Client([], map[], [])

  datatype Op =
    | NextSeq(guarded: bool)
    | Register(k: nat)
    | WriteOk(k: nat)
    | WriteFail(k: nat)
    | Await(k: nat)
    | Drop(k: nat)
    | Take(response: Response)
    | Drain(order: seq<int>, error: BackendError)
    | Deliver(i: nat)

  predicate WellFormed(c: Client) {
    && (forall q | q in c.pending :: c.pending[q] < |c.calls|)
    && (forall i | 0 <= i < |c.taken| :: c.taken[i].call < |c.calls|)
  }

  /** `order` lists the keys of the pending map, each once: a `HashMap` drains in any order. */
  ghost predicate ListsKeys(order: seq<int>, pending: map<int, nat>) {
    && (forall q :: q in order <==> q in pending)
    && (forall i, j | 0 <= i < j < |order| :: order[i] != order[j])
  }

  ghost predicate Enabled(c: Client, op: Op) {
    match op
    case NextSeq(_) => true
    case Register(k) => k < |c.calls| && c.calls[k].phase.Numbered?
    case WriteOk(k) => k < |c.calls| && c.calls[k].phase.Registered?
    case WriteFail(k) => k < |c.calls| && c.calls[k].phase.Registered?
    case Await(k) =>
      k < |c.calls| && c.calls[k].phase.Written? && (c.calls[k].sent != [] || !c.calls[k].senderLive)
    case Drop(k) => k < |c.calls| && (c.calls[k].phase.Registered? || c.calls[k].phase.Written?)
    case Take(_) => true
    case Drain(order, _) => ListsKeys(order, c.pending)
    case Deliver(i) => i < |c.taken|
  }

  /** Remove the entry under `q`; the removed sender is dropped, whoever's it was. */
  function RemovePending(c: Client, q: int): (r: Client)
    requires WellFormed(c)
    ensures WellFormed(r) && |r.calls| == |c.calls|
  {
    if q in c.pending then
      var k := c.pending[q];
      c.(pending := c.pending - {q}, calls := c.calls[k := c.calls[k].(senderLive := false)])
    else c
  }

  function SetPhase(c: Client, k: nat, phase: Phase): (r: Client)
    requires WellFormed(c) && k < |c.calls|
    ensures WellFormed(r)
  {
    c.(calls := c.calls[k := c.calls[k].(phase := phase)])
  }

  /** What `rx.await` yields: the reply sent, or `Closed` when the sender died unsent. */
  function Received(call: Call): Reply {
    if call.sent != [] then call.sent[0] else Err(Closed)
  }

  ghost function Step(c: Client, op: Op): (r: Client)
    requires WellFormed(c) && Enabled(c, op)
    ensures WellFormed(r)
  {
    match op
    case NextSeq(guarded) => c.(calls := c.calls + [Call(guarded, Numbered, [], false)])
    case Register(k) =>
      // HashMap::insert drops a sender already stored under the same key
      var d := RemovePending(c, SeqOf(k));
      d.(calls := d.calls[k := d.calls[k].(phase := Registered, senderLive := true)],
         pending := d.pending[SeqOf(k) := k])
    case WriteOk(k) => SetPhase(c, k, Written)
    case WriteFail(k) => SetPhase(RemovePending(c, SeqOf(k)), k, WriteFailed)
    case Await(k) => SetPhase(c, k, Returned(Received(c.calls[k])))
    case Drop(k) =>
      SetPhase(if c.calls[k].guarded then RemovePending(c, SeqOf(k)) else c, k, Dropped)
    case Take(response) =>
      if response.requestSeq in c.pending then
        c.(pending := c.pending - {response.requestSeq},
           taken := c.taken + [Held(c.pending[response.requestSeq], Ok(response))])
      else c
    case Drain(order, error) =>
      assert forall i | 0 <= i < |order| :: order[i] in order;
      c.(pending := map[],
         taken := c.taken + seq(|order|, i requires 0 <= i < |order| && order[i] in c.pending =>
                                           Held(c.pending[order[i]], Err(error))))
    case Deliver(i) =>
      var k := c.taken[i].call;
      c.(calls := c.calls[k := c.calls[k].(sent := c.calls[k].sent + [c.taken[i].reply], senderLive := false)],
         taken := c.taken[..i] + c.taken[i + 1..])
  }

  // ----- the invariant

  predicate InPending(c: Client, k: nat) {
    SeqOf(k) in c.pending && c.pending[SeqOf(k)] == k
  }

  predicate InTaken(c: Client, k: nat) {
    exists i :: 0 <= i < |c.taken| && c.taken[i].call == k
  }

  /** The call gave its own entry up: its write failed, or its guard fired. */
  predicate GaveUp(call: Call) {
    call.phase.WriteFailed? || (call.phase.Dropped? && call.guarded)
  }

  predicate Answers(reply: Reply, k: nat) {
    reply.Ok? ==> reply.response.requestSeq == SeqOf(k)
  }

  predicate CallGood(c: Client, k: nat)
    requires k < |c.calls|
  {
    var call := c.calls[k];
    && |call.sent| <= 1
    && (call.sent != [] ==> !call.senderLive && Answers(call.sent[0], k))
    && (call.phase.Numbered? ==> !call.senderLive && call.sent == [])
    && (call.senderLive ==> InPending(c, k) || InTaken(c, k))
    && (!call.phase.Numbered? && !call.senderLive && call.sent == [] ==> GaveUp(call))
    && (call.phase.Returned? ==> call.sent == [call.phase.reply])
  }

  /** A pending entry sits under its own number and belongs to a call that has not given up. */
  predicate EntryGood(c: Client, q: int)
    requires q in c.pending && c.pending[q] < |c.calls|
  {
    var call := c.calls[c.pending[q]];
    && q == SeqOf(c.pending[q])
    && call.senderLive && !GaveUp(call) && !call.phase.Returned? && !call.phase.Numbered?
  }

  predicate HeldGood(c: Client, i: nat)
    requires i < |c.taken| && c.taken[i].call < |c.calls|
  {
    && c.calls[c.taken[i].call].senderLive
    && !c.calls[c.taken[i].call].phase.Numbered?
    && !InPending(c, c.taken[i].call)
    && Answers(c.taken[i].reply, c.taken[i].call)
  }

  ghost predicate Good(c: Client) {
    && WellFormed(c)
    && (forall k | 0 <= k < |c.calls| :: CallGood(c, k))
    && (forall q | q in c.pending :: EntryGood(c, q))
    && (forall i | 0 <= i < |c.taken| :: HeldGood(c, i))
    && (forall i, j | 0 <= i < j < |c.taken| :: c.taken[i].call != c.taken[j].call)
  }

  lemma SeqInjective(j: nat, k: nat)
    requires j < TWO64 && k < TWO64 && SeqOf(j) == SeqOf(k)
    ensures j == k
  {
    assert (j + 1) % TWO64 == (k + 1) % TWO64;
  }

  /** The numbers in order: 1, 2, 3 and so on up to the largest, then on from the smallest. */
  lemma SeqNumbers(k: nat)
    ensures k < TWO63 - 1 ==> SeqOf(k) == k + 1
    ensures TWO63 - 1 <= k < TWO64 - 1 ==> SeqOf(k) == k + 1 - TWO64
    ensures -TWO63 <= SeqOf(k) < TWO63
  {
  }

  lemma NoCollision(c: Client)
    requires |c.calls| <= TWO64
    ensures forall j, k | 0 <= j < |c.calls| && 0 <= k < |c.calls| && SeqOf(j) == SeqOf(k) :: j == k
  {
    forall j, k | 0 <= j < |c.calls| && 0 <= k < |c.calls| && SeqOf(j) == SeqOf(k)
      ensures j == k
    {
      SeqInjective(j, k);
    }
  }

  /** Every step keeps the invariant as long as the counter has not gone all the way round. */
  lemma StepKeepsGood(c: Client, op: Op)
    requires Good(c) && Enabled(c, op)
    requires |Step(c, op).calls| <= TWO64
    ensures Good(Step(c, op))
  {
    NoCollision(Step(c, op));
    match op
    case NextSeq(_) => NextSeqKeepsGood(c, op);
    case Register(k) => RegisterKeepsGood(c, k);
    case WriteOk(k) => PhaseKeepsGood(c, k, Written);
    case WriteFail(k) => RemoveKeepsGood(c, k, WriteFailed);
    case Await(k) => PhaseKeepsGood(c, k, Returned(Received(c.calls[k])));
    case Drop(k) =>
      if c.calls[k].guarded {
        RemoveKeepsGood(c, k, Dropped);
      } else {
        PhaseKeepsGood(c, k, Dropped);
      }
    case Take(response) => TakeKeepsGood(c, response);
    case Drain(order, error) => DrainKeepsGood(c, order, error);
    case Deliver(i) => DeliverKeepsGood(c, i);
  }

  lemma NextSeqKeepsGood(c: Client, op: Op)
    requires Good(c) && op.NextSeq?
    ensures Good(Step(c, op))
  {
    var d := Step(c, op);
    forall k | 0 <= k < |d.calls| ensures CallGood(d, k) {
      if k < |c.calls| {
        assert CallGood(c, k);
        assert InTaken(c, k) ==> InTaken(d, k);
      }
    }
    forall q | q in d.pending ensures EntryGood(d, q) { assert EntryGood(c, q); }
    forall i | 0 <= i < |d.taken| ensures HeldGood(d, i) { assert HeldGood(c, i); }
  }

  lemma RegisterKeepsGood(c: Client, k: nat)
    requires Good(c) && Enabled(c, Register(k)) && |c.calls| <= TWO64
    ensures SeqOf(k) !in c.pending
    ensures Good(Step(c, Register(k)))
  {
    NoCollision(c);
    assert CallGood(c, k);
    var d := Step(c, Register(k));
    forall j | 0 <= j < |d.calls| ensures CallGood(d, j) {
      assert CallGood(c, j);
      if j != k {
        assert InPending(c, j) ==> InPending(d, j);
        assert InTaken(c, j) ==> InTaken(d, j);
      }
    }
    forall q | q in d.pending ensures EntryGood(d, q) {
      if q != SeqOf(k) { assert EntryGood(c, q); }
    }
    forall i | 0 <= i < |d.taken| ensures HeldGood(d, i) { assert HeldGood(c, i); }
  }

  /** A change of phase alone keeps the invariant when it tells no lie about the channel. */
  lemma PhaseKeepsGood(c: Client, k: nat, phase: Phase)
    requires Good(c) && k < |c.calls|
    requires c.calls[k].phase.Registered? || c.calls[k].phase.Written?
    requires !phase.Numbered? && !phase.WriteFailed? && (phase.Dropped? ==> !c.calls[k].guarded)
    requires phase.Returned? ==> phase.reply == Received(c.calls[k]) && (c.calls[k].sent != [] || !c.calls[k].senderLive)
    ensures Good(SetPhase(c, k, phase))
  {
    var d := SetPhase(c, k, phase);
    forall j | 0 <= j < |d.calls| ensures CallGood(d, j) {
      assert CallGood(c, j);
      assert InPending(c, j) ==> InPending(d, j);
      assert InTaken(c, j) ==> InTaken(d, j);
    }
    forall q | q in d.pending ensures EntryGood(d, q) {
      assert EntryGood(c, q);
      assert CallGood(c, k);
    }
    forall i | 0 <= i < |d.taken| ensures HeldGood(d, i) { assert HeldGood(c, i); }
  }

  /** A write failure or a guarded drop removes at most the call's own entry. */
  lemma RemoveKeepsGood(c: Client, k: nat, phase: Phase)
    requires Good(c) && k < |c.calls| && |c.calls| <= TWO64
    requires c.calls[k].phase.Registered? || c.calls[k].phase.Written?
    requires phase.WriteFailed? || (phase.Dropped? && c.calls[k].guarded)
    ensures SeqOf(k) in c.pending ==> c.pending[SeqOf(k)] == k
    ensures Good(SetPhase(RemovePending(c, SeqOf(k)), k, phase))
  {
    NoCollision(c);
    if SeqOf(k) in c.pending {
      assert EntryGood(c, SeqOf(k));
    }
    var d := SetPhase(RemovePending(c, SeqOf(k)), k, phase);
    forall j | 0 <= j < |d.calls| ensures CallGood(d, j) {
      assert CallGood(c, j);
      if j != k {
        assert InPending(c, j) ==> InPending(d, j);
        assert InTaken(c, j) ==> InTaken(d, j);
      } else if d.calls[k].senderLive {
        assert InTaken(d, k);
      }
    }
    forall q | q in d.pending ensures EntryGood(d, q) { assert EntryGood(c, q); }
    forall i | 0 <= i < |d.taken| ensures HeldGood(d, i) { assert HeldGood(c, i); }
  }

  lemma TakeKeepsGood(c: Client, response: Response)
    requires Good(c) && |c.calls| <= TWO64
    ensures Good(Step(c, Take(response)))
  {
    NoCollision(c);
    var d := Step(c, Take(response));
    var q := response.requestSeq;
    if q in c.pending {
      assert EntryGood(c, q);
      var k := c.pending[q];
      assert d.taken[|c.taken|] == Held(k, Ok(response));
      assert InTaken(d, k);
      forall j | 0 <= j < |d.calls| ensures CallGood(d, j) {
        assert CallGood(c, j);
        if InTaken(c, j) {
          var i :| 0 <= i < |c.taken| && c.taken[i].call == j;
          assert d.taken[i].call == j;
        }
      }
      forall p | p in d.pending ensures EntryGood(d, p) { assert EntryGood(c, p); }
      forall i | 0 <= i < |d.taken| ensures HeldGood(d, i) {
        if i < |c.taken| { assert HeldGood(c, i); }
      }
      forall i, j | 0 <= i < j < |d.taken| ensures d.taken[i].call != d.taken[j].call {
        assert HeldGood(c, i);
      }
    }
  }

  lemma DrainKeepsGood(c: Client, order: seq<int>, error: BackendError)
    requires Good(c) && Enabled(c, Drain(order, error)) && |c.calls| <= TWO64
    ensures Good(Step(c, Drain(order, error)))
    ensures forall k | 0 <= k < |c.calls| && InPending(c, k) :: InTaken(Step(c, Drain(order, error)), k)
  {
    NoCollision(c);
    var d := Step(c, Drain(order, error));
    var n := |c.taken|;
    DrainTakes(c, order, error);
    forall j | 0 <= j < |d.calls| ensures CallGood(d, j) {
      assert CallGood(c, j);
      if InTaken(c, j) {
        var i :| 0 <= i < n && c.taken[i].call == j;
        assert d.taken[i].call == j;
      }
    }
    forall i | 0 <= i < |d.taken| ensures HeldGood(d, i) {
      if i < n { assert HeldGood(c, i); } else { assert EntryGood(c, order[i - n]); }
    }
    DrainTakesEachOnce(c, order, error);
  }

  lemma DrainTakes(c: Client, order: seq<int>, error: BackendError)
    requires Good(c) && Enabled(c, Drain(order, error))
    ensures var d := Step(c, Drain(order, error));
            && |d.taken| == |c.taken| + |order| && d.pending == map[] && d.calls == c.calls
            && (forall i | 0 <= i < |c.taken| :: d.taken[i] == c.taken[i])
            && (forall i | 0 <= i < |order| :: order[i] in c.pending
                  && d.taken[|c.taken| + i] == Held(c.pending[order[i]], Err(error)))
            && forall k | 0 <= k < |c.calls| && InPending(c, k) :: InTaken(d, k)
  {
    var d := Step(c, Drain(order, error));
    assert forall i | 0 <= i < |order| :: order[i] in order;
    forall k | 0 <= k < |c.calls| && InPending(c, k) ensures InTaken(d, k) {
      var i :| 0 <= i < |order| && order[i] == SeqOf(k);
      assert d.taken[|c.taken| + i].call == k;
    }
  }

  lemma DrainTakesEachOnce(c: Client, order: seq<int>, error: BackendError)
    requires Good(c) && Enabled(c, Drain(order, error))
    ensures var d := Step(c, Drain(order, error));
            forall i, j | 0 <= i < j < |d.taken| :: d.taken[i].call != d.taken[j].call
  {
    DrainTakes(c, order, error);
    TakenOnce(c, Step(c, Drain(order, error)).taken, order, error);
  }

  /** Calls held before were not pending, and the drained ones sat under different keys. */
  lemma TakenOnce(c: Client, taken: seq<Held>, order: seq<int>, error: BackendError)
    requires Good(c) && ListsKeys(order, c.pending) && |taken| == |c.taken| + |order|
    requires forall i | 0 <= i < |c.taken| :: taken[i] == c.taken[i]
    requires forall i | 0 <= i < |order| :: order[i] in c.pending && taken[|c.taken| + i] == Held(c.pending[order[i]], Err(error))
    ensures forall i, j | 0 <= i < j < |taken| :: taken[i].call != taken[j].call
  {
    var n := |c.taken|;
    forall i, j | 0 <= i < j < |taken| ensures taken[i].call != taken[j].call {
      if n <= i {
        assert EntryGood(c, order[i - n]) && EntryGood(c, order[j - n]);
      } else if n <= j {
        assert HeldGood(c, i) && EntryGood(c, order[j - n]);
      }
    }
  }

  lemma DeliverKeepsGood(c: Client, i: nat)
    requires Good(c) && i < |c.taken|
    ensures Good(Step(c, Deliver(i)))
    ensures c.calls[c.taken[i].call].sent == []
  {
    var d := Step(c, Deliver(i));
    var k := c.taken[i].call;
    assert HeldGood(c, i) && CallGood(c, k);
    assert forall m | 0 <= m < |d.taken| :: d.taken[m] == c.taken[if m < i then m else m + 1];
    forall j | 0 <= j < |d.calls| ensures CallGood(d, j) {
      DeliverKeepsCall(c, i, j);
    }
    forall q | q in d.pending ensures EntryGood(d, q) { assert EntryGood(c, q); }
    forall m | 0 <= m < |d.taken| ensures HeldGood(d, m) {
      assert HeldGood(c, if m < i then m else m + 1);
    }
  }

  lemma DeliverKeepsCall(c: Client, i: nat, j: nat)
    requires WellFormed(c) && i < |c.taken| && j < |c.calls| && CallGood(c, j) && HeldGood(c, i)
    ensures CallGood(Step(c, Deliver(i)), j)
  {
    var d := Step(c, Deliver(i));
    if j != c.taken[i].call && InTaken(c, j) {
      var m :| 0 <= m < |c.taken| && c.taken[m].call == j;
      assert d.taken[if m < i then m else m - 1].call == j;
    }
  }

  // ----- whole runs

  /** The state after a run of steps from the fresh client; `None` once a step was not enabled. */
  ghost function Run(ops: seq<Op>): (r: Option<Client>)
    ensures r.Some? ==> WellFormed(r.value)
  {
    if ops == [] then Some(FRESH_CLIENT)
    else
      var c := Run(ops[..|ops| - 1]);
      var op := ops[|ops| - 1];
      if c.Some? && Enabled(c.value, op) then Some(Step(c.value, op)) else None
  }

  lemma {:induction false} RunGood(ops: seq<Op>)
    requires Run(ops).Some? && |Run(ops).value.calls| <= TWO64
    ensures Good(Run(ops).value)
  {
    if ops != [] {
      var c := Run(ops[..|ops| - 1]).value;
      assert |c.calls| <= |Step(c, ops[|ops| - 1]).calls|;
      RunGood(ops[..|ops| - 1]);
      StepKeepsGood(c, ops[|ops| - 1]);
    }
  }

  /** Where the sender of a registered call is, or what became of it. */
  datatype Whereabouts = Pending | Handed | Answered | Failed | Removed

  ghost predicate At(c: Client, k: nat, w: Whereabouts)
    requires k < |c.calls|
  {
    match w
    case Pending => InPending(c, k)
    case Handed => InTaken(c, k)
    case Answered => c.calls[k].sent != [] && c.calls[k].sent[0].Ok?
    case Failed => c.calls[k].sent != [] && c.calls[k].sent[0].Err?
    case Removed => !c.calls[k].senderLive && c.calls[k].sent == []
  }

  /**
   * Conservation and correlation, over every interleaving with at most 2^64 sends: each
   * registered call is in exactly one place, its channel carries at most one reply, an Ok
   * reply answers that very request, only the call itself ever removes its entry, and what
   * the call returns is what was sent to it.
   */
  lemma {:induction false} Conservation(ops: seq<Op>, k: nat)
    requires Run(ops).Some? && |Run(ops).value.calls| <= TWO64
    requires k < |Run(ops).value.calls| && !Run(ops).value.calls[k].phase.Numbered?
    ensures var c := Run(ops).value;
            && (exists w :: At(c, k, w))
            && (forall v, w | At(c, k, v) && At(c, k, w) :: v == w)
            && |c.calls[k].sent| <= 1
            && (At(c, k, Answered) ==> c.calls[k].sent[0].response.requestSeq == SeqOf(k))
            && (At(c, k, Removed) ==> GaveUp(c.calls[k]))
            && (GaveUp(c.calls[k]) ==> !At(c, k, Pending))
            && (c.calls[k].phase.Returned? ==> c.calls[k].sent == [c.calls[k].phase.reply])
  {
    RunGood(ops);
    var c := Run(ops).value;
    assert CallGood(c, k);
    if InPending(c, k) { assert EntryGood(c, SeqOf(k)); }
    if InTaken(c, k) {
      var i :| 0 <= i < |c.taken| && c.taken[i].call == k;
      assert HeldGood(c, i);
    }
    var w := if InPending(c, k) then Pending
             else if InTaken(c, k) then Handed
             else if c.calls[k].sent == [] then Removed
             else if c.calls[k].sent[0].Ok? then Answered else Failed;
    assert At(c, k, w);
    forall v | At(c, k, v) ensures v == w { }
  }

  /** No registration of a reachable client finds its key taken, and no other call's place moves. */
  lemma {:induction false} NobodyElsesEntry(ops: seq<Op>, op: Op, j: nat)
    requires Run(ops + [op]).Some? && |Run(ops + [op]).value.calls| <= TWO64
    requires op.Register? || op.WriteFail? || op.Drop?
    requires Run(ops).Some? && j < |Run(ops).value.calls| && j != op.k
    ensures var c, d := Run(ops).value, Run(ops + [op]).value;
            && d.calls[j] == c.calls[j]
            && (InPending(d, j) <==> InPending(c, j))
            && (op.Register? ==> SeqOf(op.k) !in c.pending)
  {
    assert (ops + [op])[..|ops|] == ops;
    RunGood(ops);
    var c, d := Run(ops).value, Run(ops + [op]).value;
    NoCollision(c);
    if op.Register? { RegisterKeepsGood(c, op.k); }
    if SeqOf(op.k) in c.pending { assert EntryGood(c, SeqOf(op.k)); }
  }

  // ----- the bound is tight

  lemma RunExtends(ops: seq<Op>, op: Op)
    ensures Run(ops).Some? && Enabled(Run(ops).value, op)
            ==> Run(ops + [op]) == Some(Step(Run(ops).value, op))
  {
    assert (ops + [op])[..|ops|] == ops;
  }

  lemma RunTwo(first: Op, second: Op) returns (c: Client)
    requires Enabled(FRESH_CLIENT, first) && Enabled(Step(FRESH_CLIENT, first), second)
    ensures Run([first, second]) == Some(c) && c == Step(Step(FRESH_CLIENT, first), second)
  {
    RunExtends([], first);
    RunExtends([first], second);
    assert [] + [first] == [first] && [first] + [second] == [first, second];
    c := Run([first, second]).value;
  }

  function Burst(n: nat): (r: seq<Op>)
    ensures |r| == n + 3
  {
    if n == 0 then [NextSeq(true), Register(0), WriteOk(0)] else Burst(n - 1) + [NextSeq(true)]
  }

  function AfterBurst(n: nat): Client {
    Client([Call(true, Written, [], true)] + seq(n, _ => Call(true, Numbered, [], false)), map[1 := 0], [])
  }

  lemma BurstStarts()
    ensures Run(Burst(0)) == Some(AfterBurst(0))
  {
    assert SeqOf(0) == 1;
    var c := RunTwo(NextSeq(true), Register(0));
    assert c == Client([Call(true, Registered, [], true)], map[1 := 0], []);
    var two := [NextSeq(true), Register(0)];
    RunExtends(two, WriteOk(0));
    assert two + [WriteOk(0)] == Burst(0);
    assert Step(c, WriteOk(0)).calls == AfterBurst(0).calls;
  }

  lemma RunReaches(ops: seq<Op>, op: Op, c: Client, d: Client)
    requires Run(ops) == Some(c) && WellFormed(c) && Enabled(c, op) && Step(c, op) == d
    ensures Run(ops + [op]) == Some(d)
  {
    RunExtends(ops, op);
  }

  lemma BurstGrows(n: nat)
    ensures WellFormed(AfterBurst(n)) && Step(AfterBurst(n), NextSeq(true)) == AfterBurst(n + 1)
    ensures Burst(n + 1) == Burst(n) + [NextSeq(true)]
  {
    assert AfterBurst(n).calls + [Call(true, Numbered, [], false)] == AfterBurst(n + 1).calls;
  }

  lemma {:induction false} BurstRuns(n: nat)
    ensures Run(Burst(n)) == Some(AfterBurst(n))
  {
    if n == 0 {
      BurstStarts();
    } else {
      BurstRuns(n - 1);
      BurstGrows(n - 1);
      RunReaches(Burst(n - 1), NextSeq(true), AfterBurst(n - 1), AfterBurst(n));
    }
  }

  /**
   * One send more and the wrapped counter repeats a number that is still pending: the new
   * registration overwrites the old entry, whose caller is then told `Closed`, although it
   * never gave up and nothing was sent to it.
   */
  lemma {:induction false} OneMoreOverwrites()
    ensures var ops := Burst(TWO64) + [Register(TWO64)];
            && Run(ops + [Await(0)]).Some? && Run(ops + [Await(0)]).value.calls[0].phase == Returned(Err(Closed))
            && Run(ops).Some?
            && |Run(ops).value.calls| == TWO64 + 1
            && !InPending(Run(ops).value, 0)
            && At(Run(ops).value, 0, Removed) && !GaveUp(Run(ops).value.calls[0])
  {
    BurstRuns(TWO64);
    assert SeqOf(TWO64) == SeqOf(0) == 1;
    RunExtends(Burst(TWO64), Register(TWO64));
    RunExtends(Burst(TWO64) + [Register(TWO64)], Await(0));
  }

  // ----- the `initialized` latch

  /**
   * Capacity-1 latch with one parked waiter. `parks` counts the waits that had to park;
   * park `p` is still pending exactly when the slot holds `p`.
   */
  datatype Latch = Latch(fired: bool, parked: Option<nat>, parks: nat) {
    function Signal(): Latch {
      Latch(true, None, parks)
    }

    /** `wait_initialized` when nothing fired yet: a prior parked waiter is replaced. */
    function Park(): Latch {
      Latch(fired, Some(parks), parks + 1)
    }

    /** Signalled, or replaced: a replaced receiver sees a closed channel, taken as resolved. */
    predicate Resolved(p: nat) {
      p < parks && parked != Some(p)
    }
  }

  const UNFIRED_LATCH := Latch(false, None, 0)

  // ----- the shared object, lock section by lock section

  /** What a call looks like once the drain's sends reached it. */
  function FailedCall(call: Call, error: BackendError): Call {
    call.(sent := call.sent + [Err(error)], senderLive := false)
  }

  class Shared {
    var counter: int
    var pending: map<int, nat>
    var calls: seq<Call>
    ghost var taken: seq<Held>

    ghost function View(): Client
      reads this
    {
      Client(calls, pending, taken)
    }

    ghost predicate Valid()
      reads this
    {
      && counter == Wrap64(|calls|)
      && |calls| <= TWO64
      && Good(View())
    }

    constructor ()
      ensures Valid() && View() == FRESH_CLIENT
    {
      counter, pending, calls, taken := 0, map[], [], [];
    }

    method NextSeqNumber(guarded: bool) returns (seqNumber: int)
      requires Valid() && |calls| < TWO64
      modifies this
      ensures Valid() && View() == Step(old(View()), NextSeq(guarded))
      ensures seqNumber == SeqOf(old(|calls|))
      ensures forall k | 0 <= k < old(|calls|) :: SeqOf(k) != seqNumber
    {
      StepKeepsGood(View(), NextSeq(guarded));
      counter := Wrap64(counter + 1);
      seqNumber := counter;
      calls := calls + [Call(guarded, Numbered, [], false)];
      NoCollision(View());
    }

    /** `register_pending`: the insertion never meets an existing entry. */
    method RegisterPending(k: nat)
      requires Valid() && Enabled(View(), Register(k))
      modifies this
      ensures Valid() && View() == Step(old(View()), Register(k))
      ensures pending == old(pending)[SeqOf(k) := k] && SeqOf(k) !in old(pending)
    {
      StepKeepsGood(View(), Register(k));
      RegisterKeepsGood(View(), k);
      pending := pending[SeqOf(k) := k];
      calls := calls[k := calls[k].(phase := Registered, senderLive := true)];
    }

    /** `AbortGuard::drop` on an armed guard, together with the drop of its future. */
    method Abort(k: nat)
      requires Valid() && Enabled(View(), Drop(k)) && calls[k].guarded
      modifies this
      ensures Valid() && View() == Step(old(View()), Drop(k))
      ensures !InPending(View(), k)
    {
      StepKeepsGood(View(), Drop(k));
      RemoveKeepsGood(View(), k, Dropped);
      var q := SeqOf(k);
      if q in pending {
        calls := calls[k := calls[k].(senderLive := false)];
        pending := pending - {q};
      }
      calls := calls[k := calls[k].(phase := Dropped)];
    }

    /** `dispatch_response`: remove under the lock, then send outside it. */
    method DispatchResponse(response: Response) returns (found: bool)
      requires Valid()
      modifies this
      ensures Valid() && taken == old(taken)
      ensures found <==> response.requestSeq in old(pending)
      ensures !found ==> View() == old(View())
      ensures found ==>
                var k := old(pending)[response.requestSeq];
                && SeqOf(k) == response.requestSeq && old(calls[k].sent) == []
                && pending == old(pending) - {response.requestSeq}
                && calls == old(calls)[k := old(calls[k]).(sent := [Ok(response)], senderLive := false)]
    {
      found := response.requestSeq in pending;
      if found {
        ghost var c := View();
        ghost var i := |taken|;
        assert EntryGood(c, response.requestSeq) && CallGood(c, pending[response.requestSeq]);
        StepKeepsGood(c, Take(response));
        var k := pending[response.requestSeq];
        assert calls[k].sent + [Ok(response)] == [Ok(response)];
        pending := pending - {response.requestSeq};
        StepKeepsGood(Step(c, Take(response)), Deliver(i));
        calls := calls[k := calls[k].(sent := calls[k].sent + [Ok(response)], senderLive := false)];
        assert View() == Step(Step(c, Take(response)), Deliver(i)) by {
          assert (taken + [Held(k, Ok(response))])[..i] + (taken + [Held(k, Ok(response))])[i + 1..] == taken;
        }
      }
    }

    /** Some order in which the map may yield its keys. */
    method DrainOrder() returns (order: seq<int>)
      requires Valid()
      ensures ListsKeys(order, pending)
    {
      ghost var c := View();
      NoCollision(c);
      order := [];
      for k := 0 to |calls|
        invariant forall q | q in order :: q in c.pending && c.pending[q] < k
        invariant forall j | 0 <= j < k && InPending(c, j) :: SeqOf(j) in order
        invariant forall i, j | 0 <= i < j < |order| :: order[i] != order[j]
      {
        if SeqOf(k) in pending && pending[SeqOf(k)] == k {
          assert SeqOf(k) !in order;
          assert forall i | 0 <= i < |order| :: order[i] in order;
          order := order + [SeqOf(k)];
        }
      }
      forall q | q in pending ensures q in order {
        assert EntryGood(c, q);
        assert InPending(c, pending[q]);
      }
    }

    /**
     * `cancel_all_pending`: drain under the lock, then send to each drained sender, in the
     * order the map happened to yield its keys. Every call that was pending has failed with `error`; no other call changed.
     */
    method CancelAllPending(order: seq<int>, error: BackendError)
      requires Valid() && ListsKeys(order, pending)
      modifies this
      ensures Valid() && pending == map[] && taken == old(taken)
      ensures |calls| == old(|calls|)
      ensures forall k | 0 <= k < |calls| ::
                calls[k] == if old(InPending(View(), k)) then FailedCall(old(calls[k]), error) else old(calls[k])
    {
      ghost var c := View();
      var drained := pending;
      pending := map[];
      SentToBegins(c, order, error);
      for i := 0 to |order|
        invariant pending == map[] && counter == old(counter) && taken == c.taken
        invariant SentTo(c, calls, order, i, error)
      {
        OrderedKey(c, order, i);
        var k := drained[order[i]];
        SentToNext(c, calls, order, i, error);
        calls := calls[k := calls[k].(sent := calls[k].sent + [Err(error)], senderLive := false)];
      }
      SentToAll(c, calls, order, error);
      DrainedIsGood(c, View(), error);
    }
  }

  /** The calls once the error was sent to the first n drained senders. */
  ghost predicate SentTo(c: Client, calls: seq<Call>, order: seq<int>, n: nat, error: BackendError)
    requires n <= |order|
  {
    && |calls| == |c.calls|
    && forall k | 0 <= k < |calls| ::
         calls[k] == if InPending(c, k) && SeqOf(k) in order[..n] then FailedCall(c.calls[k], error) else c.calls[k]
  }

  lemma SentToBegins(c: Client, order: seq<int>, error: BackendError)
    ensures SentTo(c, c.calls, order, 0, error)
  {
  }

  lemma OrderedKey(c: Client, order: seq<int>, i: nat)
    requires Good(c) && ListsKeys(order, c.pending) && i < |order|
    ensures order[i] in c.pending && c.pending[order[i]] < |c.calls| && SeqOf(c.pending[order[i]]) == order[i]
    ensures order[i] !in order[..i]
  {
    assert order[i] in order;
    assert EntryGood(c, order[i]);
  }

  lemma SentToNext(c: Client, calls: seq<Call>, order: seq<int>, i: nat, error: BackendError)
    requires Good(c) && ListsKeys(order, c.pending) && i < |order| && SentTo(c, calls, order, i, error)
    requires |c.calls| <= TWO64 && order[i] in c.pending && c.pending[order[i]] < |c.calls|
    ensures var k := c.pending[order[i]];
            SentTo(c, calls[k := calls[k].(sent := calls[k].sent + [Err(error)], senderLive := false)], order, i + 1, error)
  {
    NoCollision(c);
    OrderedKey(c, order, i);
    assert order[..i + 1] == order[..i] + [order[i]];
  }

  lemma SentToAll(c: Client, calls: seq<Call>, order: seq<int>, error: BackendError)
    requires ListsKeys(order, c.pending) && SentTo(c, calls, order, |order|, error)
    ensures |calls| == |c.calls|
    ensures forall k | 0 <= k < |calls| ::
              calls[k] == if InPending(c, k) then FailedCall(c.calls[k], error) else c.calls[k]
  {
    assert order[..|order|] == order;
  }

  lemma DrainedIsGood(c: Client, d: Client, error: BackendError)
    requires Good(c) && |c.calls| == |d.calls| && d.pending == map[] && d.taken == c.taken
    requires forall k | 0 <= k < |c.calls| ::
               d.calls[k] == if InPending(c, k) then FailedCall(c.calls[k], error) else c.calls[k]
    ensures Good(d)
  {
    forall i | 0 <= i < |d.taken| ensures d.taken[i].call < |d.calls| && HeldGood(d, i) {
      assert HeldGood(c, i);
    }
    forall k | 0 <= k < |d.calls| ensures CallGood(d, k) {
      assert CallGood(c, k);
      if InPending(c, k) { assert EntryGood(c, SeqOf(k)); }
      assert InTaken(c, k) ==> InTaken(d, k);
    }
  }
}
