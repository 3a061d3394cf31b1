/**
 * The handlers are modelled twice: as calls run one at a time (`Handlers`) and as single writes
 * that others may come between (`GenerationGuard`). Run without anyone in between, they agree.
 */
module HandlerAgreement {
  import opened Types
  import opened S = Sessions
  import H = Handlers
  import G = GenerationGuard

  /** The writes in order. */
  function PutAll(inner: Inner, writes: seq<G.Write>): Inner
    decreases |writes|
  {
    if writes == [] then inner else PutAll(G.Put(inner, writes[0]), writes[1..])
  }

  lemma {:induction false} PutAppend(inner: Inner, a: seq<G.Write>, b: seq<G.Write>)
    ensures PutAll(inner, a + b) == PutAll(PutAll(inner, a), b)
    decreases |a|
  {
    if a == [] {
      assert a + b == b;
    } else {
      assert (a + b)[1..] == a[1..] + b;
      PutAppend(G.Put(inner, a[0]), a[1..], b);
    }
  }

  lemma PutOne(inner: Inner, w: G.Write)
    ensures PutAll(inner, [w]) == G.Put(inner, w)
  {
    assert [w][1..] == [];
  }

  lemma PutTwo(inner: Inner, a: G.Write, b: G.Write)
    ensures PutAll(inner, [a, b]) == G.Put(G.Put(inner, a), b)
  {
    assert [a, b][1..] == [b];
    PutOne(G.Put(inner, a), b);
  }

  // ----- launch and attach

  /** What ends a start stores what the sequential handler stores. */
  lemma StartAgrees(inner: Inner, program: string, pid: Option<int>, outcome: StartOutcome)
    ensures PutAll(inner, G.WritesOf(G.Handshake(program, pid, outcome))) == H.StartedSession(inner, program, pid, outcome)
  {
    var h := G.Handshake(program, pid, outcome);
    var first := [G.ToProgram(program)];
    var second := if pid.Some? then [G.ToPid(pid.value)] else [];
    var third := match outcome
      case EntryStop(info) => [G.ToState(State.Stopped), G.ToLastStop(info)]
      case LeftRunning => [G.ToState(Running)]
      case EndedEarly => [G.ToState(State.Terminated)];
    assert G.WritesOf(h) == first + second + third;
    PutAppend(inner, first + second, third);
    PutAppend(inner, first, second);
    PutOne(inner, G.ToProgram(program));
    var named := inner.(program := program);
    if pid.Some? { PutOne(named, G.ToPid(pid.value)); }
    var known := if pid.Some? then named.(pid := pid.value) else named;
    match outcome
    case EntryStop(info) => PutTwo(known, G.ToState(State.Stopped), G.ToLastStop(info));
    case LeftRunning => PutOne(known, G.ToState(Running));
    case EndedEarly => PutOne(known, G.ToState(State.Terminated));
  }

  /** The writes of a launch, from its opening to its end, for each way it may go. */
  function LaunchWrites(program: string, start: H.Start): seq<G.Write> {
    G.OpeningPhase(G.Launch).todo
    + if start.Up? then G.WritesOf(G.Handshake(program, start.pid, start.outcome)) else [G.Wipe]
  }

  lemma LaunchAgrees(w: H.World, program: string, start: H.Start)
    requires w.session.state == Idle
    ensures PutAll(w.session, LaunchWrites(program, start)) == H.AfterLaunch(w, Some(program), start).session
  {
    var opening := [G.ToState(Configuring), G.Flush];
    var s := w.session.(state := Configuring).Flushed();
    PutTwo(w.session, opening[0], opening[1]);
    H.ResetForgets(w.session);
    if start.Up? {
      PutAppend(w.session, opening, G.WritesOf(G.Handshake(program, start.pid, start.outcome)));
      StartAgrees(s, program, start.pid, start.outcome);
      H.StartForgetsState(w.session, program, start.pid, start.outcome);
    } else {
      PutAppend(w.session, opening, [G.Wipe]);
      PutOne(s, G.Wipe);
    }
  }

  function AttachWrites(target: string, start: H.Start): seq<G.Write> {
    G.OpeningPhase(G.Attach).todo
    + if start.Up? then G.WritesOf(G.Handshake(target, start.pid, if start.outcome.EntryStop? then start.outcome else EndedEarly))
      else [G.Wipe]
  }

  lemma AttachAgrees(w: H.World, target: string, start: H.Start)
    requires w.session.state == Idle
    ensures PutAll(w.session, AttachWrites(target, start)) == H.AfterAttach(w, Some(target), start).session
  {
    var opening := [G.ToState(Configuring)];
    var s := w.session.(state := Configuring);
    PutOne(w.session, opening[0]);
    H.ResetForgets(w.session);
    if start.Up? {
      var o := if start.outcome.EntryStop? then start.outcome else EndedEarly;
      PutAppend(w.session, opening, G.WritesOf(G.Handshake(target, start.pid, o)));
      StartAgrees(s, target, start.pid, o);
      H.StartForgetsState(w.session, target, start.pid, o);
    } else {
      PutAppend(w.session, opening, [G.Wipe]);
      PutOne(s, G.Wipe);
    }
  }

  lemma DisconnectAgrees(w: H.World)
    requires w.session.state != Idle
    ensures PutAll(w.session, G.OpeningPhase(G.Disconnect).todo) == H.After(w, H.Call.Disconnect).session
  {
    PutOne(w.session, G.Wipe);
  }

  // ----- resume

  function ResumeWrites(outcome: StopOutcome): seq<G.Write> {
    [G.ToState(Running), G.GuardedWrite(outcome)] + if outcome.Stopped? then [G.ToLastStop(outcome.info)] else []
  }

  lemma ResumeAgrees(w: H.World, outcome: StopOutcome)
    requires w.session.state == State.Stopped && w.backend.Some?
    ensures PutAll(w.session, ResumeWrites(outcome)) == H.AfterResume(w, true, H.Back(outcome)).session
  {
    var two := [G.ToState(Running), G.GuardedWrite(outcome)];
    PutTwo(w.session, two[0], two[1]);
    H.SettleForgets(w.session, outcome);
    if outcome.Stopped? {
      PutAppend(w.session, two, [G.ToLastStop(outcome.info)]);
      PutOne(PutAll(w.session, two), G.ToLastStop(outcome.info));
    } else {
      assert two + [] == two;
    }
  }

  // ----- breakpoints

  /** What the reply to a breakpoint call tells the handler. */
  function ReplyFor(answer: H.Answer, info: BpInfo): G.Reply {
    if answer.Failure? then G.Refused else if answer.results == [] then G.NoInfo else G.Breakpoint(info)
  }

  lemma SetAgrees(w: H.World, file: string, line: int, condition: string, answer: H.Answer)
    requires w.session.state == Idle || (w.session.state == State.Stopped && w.backend.Some?)
    ensures var info := if answer.Results? && answer.results != [] then
                          var m := H.Matched(answer.results, line); SourceInfo(m.id, file, m.line, condition, m.verified)
                        else SourceInfo(0, "", 0, "", false);
            PutAll(w.session, G.Commits(G.SetSource(file, SourceBp(line, condition)), w.session.state, ReplyFor(answer, info)))
            == H.AfterSet(w, Some(file), Some(line), condition, answer).session
  {
    var bp := SourceBp(line, condition);
    if w.session.state == Idle {
      PutOne(w.session, G.AddPendingSource(file, bp));
    } else if answer.Results? && answer.results != [] {
      SetPlacedAgrees(w, file, bp, answer, H.Matched(answer.results, line));
    }
  }

  lemma SetPlacedAgrees(w: H.World, file: string, bp: SourceBp, answer: H.Answer, m: H.BpResult)
    requires w.session.state == State.Stopped && w.backend.Some? && answer.Results? && answer.results != []
    requires m == H.Matched(answer.results, bp.line)
    ensures PutAll(w.session, [G.AddSource(file, bp), G.AddResponse(SourceInfo(m.id, file, m.line, bp.condition, m.verified))])
         == H.AfterSet(w, Some(file), Some(bp.line), bp.condition, answer).session
  {
    PutTwo(w.session, G.AddSource(file, bp), G.AddResponse(SourceInfo(m.id, file, m.line, bp.condition, m.verified)));
  }

  lemma SetFunctionAgrees(w: H.World, name: string, condition: string, answer: H.Answer)
    requires w.session.state == Idle || (w.session.state == State.Stopped && w.backend.Some?)
    ensures var info := if answer.Results? && answer.results != [] then
                          var m := answer.results[|answer.results| - 1]; FunctionInfo(m.id, name, condition, m.verified)
                        else FunctionInfo(0, "", "", false);
            PutAll(w.session, G.Commits(G.SetFunction(FunctionBp(name, condition)), w.session.state, ReplyFor(answer, info)))
            == H.AfterSetFunction(w, Some(name), condition, answer).session
  {
    var bp := FunctionBp(name, condition);
    if w.session.state == Idle {
      PutOne(w.session, G.AddPendingFunction(bp));
    } else if answer.Results? {
      if answer.results == [] {
        PutOne(w.session, G.AddFunction(bp));
      } else {
        var m := answer.results[|answer.results| - 1];
        PutTwo(w.session, G.AddFunction(bp), G.AddResponse(FunctionInfo(m.id, name, condition, m.verified)));
      }
    }
  }

  lemma RemoveAgrees(w: H.World, id: int, answer: H.Answer)
    requires w.session.state == State.Stopped && w.backend.Some? && id in w.session.responses
    ensures PutAll(w.session, G.Commits(G.RemoveBp(id), w.session.state, if answer.Failure? then G.Refused else G.NoInfo))
         == H.AfterRemove(w, Some(id), answer).session
  {
    if !answer.Failure? { PutOne(w.session, G.RemoveById(id)); }
  }

  // ----- guards

  /** A handler that the state check turns away changes nothing, in either model the same states. */
  lemma GuardsAgree(w: H.World, call: H.Call)
    requires match call
             case SetBreakpoint(_, _, _, _) => !G.Admits(G.SetSource("", SourceBp(0, "")), w.session.state)
             case SetFunction(_, _, _) => !G.Admits(G.SetFunction(FunctionBp("", "")), w.session.state)
             case Remove(_, _) => !G.Admits(G.RemoveBp(0), w.session.state)
             case Launch(_, _) => !G.Admits(G.Launch, w.session.state)
             case Attach(_, _) => !G.Admits(G.Attach, w.session.state)
             case Disconnect => !G.Admits(G.Disconnect, w.session.state)
             case Resume(_, _) => !G.Admits(G.Resume, w.session.state)
             case PumpEnds(_) => false
    ensures H.After(w, call) == w
  {
  }

  /** And those that are let through do act: each of these calls changes the world iff its handler is admitted. */
  lemma AdmittedActs(w: H.World, name: string, id: int)
    requires w.backend.Some?
    ensures G.Admits(G.Launch, w.session.state) <==> H.After(w, H.Call.Launch(Some(name), H.NoConnection)) != w
    ensures G.Admits(G.Attach, w.session.state) <==> H.After(w, H.Call.Attach(Some(name), H.NoConnection)) != w
    ensures G.Admits(G.Disconnect, w.session.state) <==> H.After(w, H.Call.Disconnect) != w
    ensures G.Admits(G.Resume, w.session.state) <==> H.After(w, H.Call.Resume(true, H.TimedOut)) != w
    ensures id in w.session.responses ==>
              (G.Admits(G.RemoveBp(id), w.session.state) <==> H.After(w, H.Call.Remove(Some(id), H.Results([]))) != w)
  {
    assert H.ShutDown(w).backend != w.backend;
  }

  lemma AdmittedSets(w: H.World, file: string, bp: SourceBp, name: FunctionBp, result: H.BpResult)
    requires w.backend.Some?
    ensures G.Admits(G.SetSource(file, bp), w.session.state) <==>
              H.After(w, H.Call.SetBreakpoint(Some(file), Some(bp.line), bp.condition, H.Results([result]))) != w
    ensures G.Admits(G.SetFunction(name), w.session.state) <==>
              H.After(w, H.Call.SetFunction(Some(name.name), name.condition, H.Results([result]))) != w
  {
    var s := w.session;
    assert ListOf(s.pendingSource, file) + [bp] != ListOf(s.pendingSource, file);
    assert ListOf(s.sourceBps, file) + [bp] != ListOf(s.sourceBps, file);
    assert s.functionBps + [name] != s.functionBps && s.pendingFunction + [name] != s.pendingFunction;
    if s.state == Idle {
      assert ListOf(s.pendingSource[file := ListOf(s.pendingSource, file) + [bp]], file) != ListOf(s.pendingSource, file);
    } else if s.state == State.Stopped {
      assert ListOf(s.sourceBps[file := ListOf(s.sourceBps, file) + [bp]], file) != ListOf(s.sourceBps, file);
    }
  }

  // ----- the steps of a handler that nobody interrupts

  function Plains(t: nat, n: nat): (r: seq<G.Op>)
    ensures |r| == n
  {
    if n == 0 then [] else [G.Plain(t)] + Plains(t, n - 1)
  }

  /** Task `t` is in that phase, and nothing else is different but the session. */
  ghost predicate Went(s: G.System, u: G.System, t: nat, phase: G.Phase) {
    t < |s.tasks| && u.tasks == s.tasks[t := s.tasks[t].(phase := phase)]
  }

  lemma PlainStep(s: G.System, t: nat, todo: seq<G.Write>, last: G.Phase)
    requires t < |s.tasks| && todo != []
    requires (s.tasks[t].phase == G.Storing(todo) && last == G.Over) || (s.tasks[t].phase == G.Opening(todo) && last == G.Connecting)
    ensures var u := G.Step(s, G.Plain(t));
            && u.inner == G.Put(s.inner, todo[0])
            && Went(s, u, t, if |todo| == 1 then last else if last == G.Over then G.Storing(todo[1..]) else G.Opening(todo[1..]))
  {
  }

  /** A list of unguarded writes, made one after the other. */
  lemma {:induction false} StoresAll(s: G.System, t: nat, todo: seq<G.Write>, last: G.Phase)
    requires t < |s.tasks| && todo != []
    requires (s.tasks[t].phase == G.Storing(todo) && last == G.Over) || (s.tasks[t].phase == G.Opening(todo) && last == G.Connecting)
    ensures var u := G.Run(s, Plains(t, |todo|)); u.inner == PutAll(s.inner, todo) && Went(s, u, t, last)
    decreases |todo|
  {
    PlainStep(s, t, todo, last);
    PlainsFirst(s, t, |todo|);
    if |todo| == 1 {
      PutOne(s.inner, todo[0]);
      assert todo == [todo[0]];
    } else {
      StoresAll(G.Step(s, G.Plain(t)), t, todo[1..], last);
    }
  }

  lemma PlainsFirst(s: G.System, t: nat, n: nat)
    requires n > 0
    ensures G.Run(s, Plains(t, n)) == G.Run(G.Step(s, G.Plain(t)), Plains(t, n - 1))
    ensures n == 1 ==> G.Run(s, Plains(t, n)) == G.Step(s, G.Plain(t))
  {
    G.RunAppend(s, [G.Plain(t)], Plains(t, n - 1));
    G.RunOne(s, G.Plain(t));
  }

  lemma Begins(s: G.System, kind: G.Kind)
    requires G.Admits(kind, s.inner.state)
    ensures var u := G.Step(s, G.Begin(kind));
            && u.inner == s.inner && u.resets == s.resets && |u.tasks| == |s.tasks| + 1
            && u.tasks[|s.tasks|] == G.Task(kind, s.resets, None, G.OpeningPhase(kind))
  {
  }

  /** A resume from its check to its answer: running, with the generation in hand. */
  lemma ResumeGoesOut(s: G.System)
    requires s.inner.state == State.Stopped
    ensures var t := |s.tasks|;
            var u := G.Step(G.Step(G.Step(s, G.Begin(G.Resume)), G.Capture(t)), G.Plain(t));
            && u.inner == s.inner.(state := Running) && |u.tasks| == t + 1
            && u.tasks[t] == G.Task(G.Resume, s.resets, Some(G.Held(s.inner.generation, s.resets)), G.Waiting)
  {
    var t := |s.tasks|;
    Begins(s, G.Resume);
    var s1 := G.Step(s, G.Begin(G.Resume));
    var s2 := G.Step(s1, G.Capture(t));
    assert s2.inner == s.inner && s2.tasks[t] == G.Task(G.Resume, s.resets, Some(G.Held(s.inner.generation, s.resets)), G.Captured);
  }

  /** What a resume that nobody interrupts leaves, by its answer: as the sequential handler has it. */
  lemma ResumeStepsAgree(w: H.World, u: G.System, t: nat, outcome: StopOutcome)
    requires w.session.state == State.Stopped && w.backend.Some?
    requires u.inner == w.session.(state := Running) && t < |u.tasks| && u.tasks[t].phase.Waiting?
    requires u.tasks[t].held.Some? && u.tasks[t].held.value.g == w.session.generation
    ensures var v := G.Step(G.Step(u, G.Answer(t, Some(outcome))), G.Finish(t));
            if outcome.Stopped?
            then v.tasks[t].phase == G.Storing([G.ToLastStop(outcome.info)])
                 && G.Step(v, G.Plain(t)).inner == H.AfterResume(w, true, H.Back(outcome)).session
            else v.tasks[t].phase.Over? && v.inner == H.AfterResume(w, true, H.Back(outcome)).session
  {
    var v1 := G.Step(u, G.Answer(t, Some(outcome)));
    assert v1.inner == u.inner && v1.tasks[t] == u.tasks[t].(phase := G.Returned(outcome));
    H.SettleForgets(w.session, outcome);
    var v := G.Step(v1, G.Finish(t));
    assert v.inner == G.Put(u.inner, G.GuardedWrite(outcome));
    if outcome.Stopped? { PlainStep(v, t, [G.ToLastStop(outcome.info)], G.Over); }
  }

  /** A send error reverts the state, and a timeout leaves it running. */
  lemma ResumeFailuresAgree(w: H.World, u: G.System, t: nat)
    requires w.session.state == State.Stopped && w.backend.Some?
    requires u.inner == w.session.(state := Running) && t < |u.tasks| && u.tasks[t].phase.Waiting?
    ensures G.Step(G.Step(u, G.Answer(t, None)), G.Plain(t)).inner == H.AfterResume(w, true, H.SendError).session
    ensures G.Step(u, G.GiveUp(t)).inner == H.AfterResume(w, true, H.TimedOut).session
    ensures G.Step(u, G.GiveUp(t)).tasks[t].phase.Over? && G.Step(G.Step(u, G.Answer(t, None)), G.Plain(t)).tasks[t].phase.Over?
  {
    H.RunningIsInterim(w.session);
    var v := G.Step(u, G.Answer(t, None));
    assert v.inner == u.inner && v.tasks[t].phase == G.Storing([G.ToState(State.Stopped)]);
    PlainStep(v, t, [G.ToState(State.Stopped)], G.Over);
  }

  // ----- starts

  /** A launch up to its connection has configured the session and flushed what was pending. */
  lemma LaunchOpens(s: G.System)
    requires s.inner.state == Idle
    ensures var t := |s.tasks|;
            var u := G.Run(G.Step(s, G.Begin(G.Launch)), Plains(t, 2));
            && u.inner == PutAll(s.inner, [G.ToState(Configuring), G.Flush]) && |u.tasks| == t + 1
            && u.tasks[t].phase.Connecting? && u.tasks[t].kind == G.Launch && u.tasks[t].held.None?
  {
    var t := |s.tasks|;
    Begins(s, G.Launch);
    StoresAll(G.Step(s, G.Begin(G.Launch)), t, [G.ToState(Configuring), G.Flush], G.Connecting);
  }

  /** An attach has configured the session. */
  lemma AttachOpens(s: G.System)
    requires s.inner.state == Idle
    ensures var t := |s.tasks|;
            var u := G.Run(G.Step(s, G.Begin(G.Attach)), Plains(t, 1));
            && u.inner == PutAll(s.inner, [G.ToState(Configuring)]) && |u.tasks| == t + 1
            && u.tasks[t].phase.Connecting? && u.tasks[t].kind == G.Attach && u.tasks[t].held.None?
  {
    var t := |s.tasks|;
    Begins(s, G.Attach);
    StoresAll(G.Step(s, G.Begin(G.Attach)), t, [G.ToState(Configuring)], G.Connecting);
  }

  /** The adapter is connected and the pump runs. */
  function Connected(u: G.System, t: nat): G.System {
    G.Step(G.Step(u, G.Connect(t, true)), G.Capture(t))
  }

  lemma Connects(u: G.System, t: nat)
    requires t < |u.tasks| && u.tasks[t].phase.Connecting?
    ensures var v := Connected(u, t);
            && v.inner == u.inner && t < |v.tasks| && v.tasks[t].phase.Starting?
            && v.tasks[t].held == Some(G.Held(u.inner.generation, u.resets))
  {
  }

  /** From the connection on: a start whose handshake goes through, */
  function Shaken(u: G.System, t: nat, h: G.Handshake): G.System {
    G.Run(G.Step(Connected(u, t), G.HandshakeDone(t, Some(h))), Plains(t, |G.WritesOf(h)|))
  }

  /** and one that fails, with or without a connection. */
  function Failed(u: G.System, t: nat, connects: bool): G.System {
    G.Step(if connects then G.Step(Connected(u, t), G.HandshakeDone(t, None)) else G.Step(u, G.Connect(t, false)), G.Plain(t))
  }

  lemma ShakenStores(u: G.System, t: nat, h: G.Handshake)
    requires t < |u.tasks| && u.tasks[t].phase.Connecting?
    ensures var v := Shaken(u, t, h); v.inner == PutAll(u.inner, G.WritesOf(h)) && t < |v.tasks| && v.tasks[t].phase.Over?
  {
    Connects(u, t);
    StoresAll(G.Step(Connected(u, t), G.HandshakeDone(t, Some(h))), t, G.WritesOf(h), G.Over);
  }

  lemma FailedWipes(u: G.System, t: nat, connects: bool)
    requires t < |u.tasks| && u.tasks[t].phase.Connecting?
    ensures var v := Failed(u, t, connects); v.inner == PutAll(u.inner, [G.Wipe]) && t < |v.tasks| && v.tasks[t].phase.Over?
  {
    PutOne(u.inner, G.Wipe);
    if connects {
      Connects(u, t);
      PlainStep(G.Step(Connected(u, t), G.HandshakeDone(t, None)), t, [G.Wipe], G.Over);
    } else {
      PlainStep(G.Step(u, G.Connect(t, false)), t, [G.Wipe], G.Over);
    }
  }

  /** A launch that nobody interrupts leaves what the sequential handler leaves, for each way it may go. */
  lemma LaunchStepsAgree(w: H.World, u: G.System, t: nat, program: string, start: H.Start)
    requires w.session.state == Idle && t < |u.tasks| && u.tasks[t].phase.Connecting?
    requires u.inner == PutAll(w.session, [G.ToState(Configuring), G.Flush])
    ensures H.AfterLaunch(w, Some(program), start).session ==
              if start.Up? then Shaken(u, t, G.Handshake(program, start.pid, start.outcome)).inner
              else Failed(u, t, !start.NoConnection?).inner
  {
    LaunchAgrees(w, program, start);
    if start.Up? {
      var h := G.Handshake(program, start.pid, start.outcome);
      PutAppend(w.session, [G.ToState(Configuring), G.Flush], G.WritesOf(h));
      ShakenStores(u, t, h);
    } else {
      PutAppend(w.session, [G.ToState(Configuring), G.Flush], [G.Wipe]);
      FailedWipes(u, t, !start.NoConnection?);
    }
  }

  /** So does an attach. */
  lemma AttachStepsAgree(w: H.World, u: G.System, t: nat, target: string, start: H.Start)
    requires w.session.state == Idle && t < |u.tasks| && u.tasks[t].phase.Connecting?
    requires u.inner == PutAll(w.session, [G.ToState(Configuring)])
    ensures H.AfterAttach(w, Some(target), start).session ==
              if start.Up?
              then Shaken(u, t, G.Handshake(target, start.pid, if start.outcome.EntryStop? then start.outcome else EndedEarly)).inner
              else Failed(u, t, !start.NoConnection?).inner
  {
    AttachAgrees(w, target, start);
    if start.Up? {
      var h := G.Handshake(target, start.pid, if start.outcome.EntryStop? then start.outcome else EndedEarly);
      PutAppend(w.session, [G.ToState(Configuring)], G.WritesOf(h));
      ShakenStores(u, t, h);
    } else {
      PutAppend(w.session, [G.ToState(Configuring)], [G.Wipe]);
      FailedWipes(u, t, !start.NoConnection?);
    }
  }

  // ----- the other handlers

  /** A breakpoint or backtrace handler that nobody interrupts makes its commits, and no other write. */
  lemma CommitStepsAgree(s: G.System, kind: G.Kind, reply: G.Reply)
    requires G.Admits(kind, s.inner.state) && G.OpeningPhase(kind).Checked? && !kind.Resume?
    ensures var t, writes := |s.tasks|, G.Commits(kind, s.inner.state, reply);
            G.Run(G.Step(G.Step(s, G.Begin(kind)), G.Proceed(t, reply)), Plains(t, |writes|)).inner == PutAll(s.inner, writes)
  {
    var t, writes := |s.tasks|, G.Commits(kind, s.inner.state, reply);
    Begins(s, kind);
    var u := G.Step(G.Step(s, G.Begin(kind)), G.Proceed(t, reply));
    assert u.inner == s.inner && u.tasks[t].phase == G.Storing(writes);
    if writes != [] { StoresAll(u, t, writes, G.Over); }
  }

  /** The frames of a backtrace are stored when it was made while stopped, and nothing else changes. */
  lemma BacktraceStores(s: G.System, frames: map<int, int>)
    requires s.inner.state == State.Stopped
    ensures var t := |s.tasks|;
            G.Run(G.Step(G.Step(s, G.Begin(G.Backtrace)), G.Proceed(t, G.Frames(frames))), Plains(t, 1)).inner
            == s.inner.(frames := frames)
  {
    CommitStepsAgree(s, G.Backtrace, G.Frames(frames));
    PutOne(s.inner, G.ToFrames(frames));
  }

  lemma DisconnectStepsAgree(w: H.World, s: G.System)
    requires w.session.state != Idle && s.inner == w.session
    ensures G.Step(G.Step(s, G.Begin(G.Disconnect)), G.Plain(|s.tasks|)).inner == H.After(w, H.Call.Disconnect).session
  {
    Begins(s, G.Disconnect);
    PlainStep(G.Step(s, G.Begin(G.Disconnect)), |s.tasks|, [G.Wipe], G.Over);
  }

  /** A termination under the live generation is one write of the pump. */
  lemma PumpAgrees(w: H.World, code: Option<int>)
    requires w.backend.Some?
    ensures H.After(w, H.Call.PumpEnds(code)) == w.(session := G.Put(w.session, G.ToEnd(code)))
  {
  }
}
