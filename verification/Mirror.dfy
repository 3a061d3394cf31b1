/** What the handlers' bookkeeping of breakpoints is worth, over every run of calls. */
module BreakpointMirror {
  import opened Types
  import opened S = Sessions
  import opened H = Handlers

  function RunCalls(w: World, calls: seq<Call>): World {
    if calls == [] then w else After(RunCalls(w, calls[..|calls| - 1]), calls[|calls| - 1])
  }

  // ----- the mirror

  /** The session tracks exactly the lists the adapter took over last. */
  ghost predicate SameLists(s: Inner, a: Adapter) {
    && (forall f :: ListOf(s.sourceBps, f) == ListOf(a.files, f))
    && s.functionBps == a.functions
  }

  predicate NothingTracked(s: Inner) {
    s.sourceBps == map[] && s.functionBps == [] && s.responses == map[]
  }

  /** Idle is to have no adapter and to track nothing; otherwise the lists agree. */
  ghost predicate Mirrors(w: World) {
    && (w.session.state == Idle <==> w.backend.None?)
    && (w.backend.None? ==> NothingTracked(w.session))
    && (w.backend.Some? ==> SameLists(w.session, w.backend.value))
  }

  /** The call gets as far as the adapter. */
  predicate Reaches(w: World, call: Call) {
    && w.session.state == State.Stopped && w.backend.Some?
    && match call
       case SetBreakpoint(file, line, _, _) => file.Some? && line.Some?
       case SetFunction(name, _, _) => name.Some?
       case Remove(id, _) => id.Some? && id.value in w.session.responses
       case _ => false
  }

  /** Whether a removal names anything in the tracked lists. */
  predicate NamesTracked(s: Inner, info: BpInfo) {
    match info
    case SourceInfo(_, file, line, _, _) => exists i :: 0 <= i < |ListOf(s.sourceBps, file)| && ListOf(s.sourceBps, file)[i].line == line
    case FunctionInfo(_, name, _, _) => exists i :: 0 <= i < |s.functionBps| && s.functionBps[i].name == name
  }

  /** The adapter takes over a changed list, and the handler is not told, or told of no breakpoint. */
  predicate Untold(w: World, call: Call) {
    && Reaches(w, call)
    && match call
       case SetBreakpoint(_, _, _, answer) => answer == Failure(true) || answer == Results([])
       case SetFunction(_, _, answer) => answer == Failure(true)
       case Remove(id, answer) => answer == Failure(true) && NamesTracked(w.session, w.session.responses[id.value])
       case _ => false
  }

  lemma SetSourceMirrors(w: World, file: string, line: int, condition: string, answer: Answer)
    requires Mirrors(w) && w.session.state == State.Stopped
    ensures Mirrors(SourceSet(w, w.backend.value, file, line, condition, answer))
       <==> !(answer == Failure(true) || answer == Results([]))
  {
    var a, s := w.backend.value, w.session;
    var bps := ListOf(s.sourceBps, file) + [SourceBp(line, condition)];
    var v := SourceSet(w, a, file, line, condition, answer);
    assert ListOf(a.files, file) == ListOf(s.sourceBps, file) != bps;
    if answer == Failure(true) || answer == Results([]) {
      assert ListOf(v.backend.value.files, file) == bps;
      assert ListOf(v.session.sourceBps, file) != bps;
    } else {
      forall f ensures ListOf(v.session.sourceBps, f) == ListOf(v.backend.value.files, f) {
        assert ListOf(s.sourceBps, f) == ListOf(a.files, f);
      }
    }
  }

  lemma SetFunctionMirrors(w: World, name: string, condition: string, answer: Answer)
    requires Mirrors(w) && w.session.state == State.Stopped
    ensures Mirrors(FunctionSet(w, w.backend.value, name, condition, answer)) <==> answer != Failure(true)
  {
    var bps := w.session.functionBps + [FunctionBp(name, condition)];
    assert bps != w.session.functionBps;
    var v := FunctionSet(w, w.backend.value, name, condition, answer);
    assert v.session.sourceBps == w.session.sourceBps && v.backend.value.files == w.backend.value.files;
  }

  lemma RemoveSourceMirrors(w: World, id: int, answer: Answer)
    requires Mirrors(w) && w.session.state == State.Stopped && id in w.session.responses
    requires w.session.responses[id].SourceInfo?
    ensures Mirrors(Removal(w, w.backend.value, id, answer))
       <==> !(answer == Failure(true) && NamesTracked(w.session, w.session.responses[id]))
  {
    var a, s := w.backend.value, w.session;
    var info := s.responses[id];
    var bps := ListOf(s.sourceBps, info.file);
    var rest := RemainingSource(s, info);
    assert rest == bps <==> !NamesTracked(s, info) by {
      WithoutChanges(bps, LineIndex(bps, info.line));
    }
    var v := Removal(w, a, id, answer);
    if answer == Failure(true) {
      assert ListOf(v.backend.value.files, info.file) == rest;
      assert ListOf(v.session.sourceBps, info.file) == bps;
      assert v.session == s;
      forall f | f != info.file ensures ListOf(s.sourceBps, f) == ListOf(v.backend.value.files, f) {
        assert ListOf(s.sourceBps, f) == ListOf(a.files, f);
      }
    } else {
      forall f ensures ListOf(v.session.sourceBps, f) == ListOf(v.backend.value.files, f) {
        assert ListOf(s.sourceBps, f) == ListOf(a.files, f);
      }
    }
  }

  lemma RemoveFunctionMirrors(w: World, id: int, answer: Answer)
    requires Mirrors(w) && w.session.state == State.Stopped && id in w.session.responses
    requires w.session.responses[id].FunctionInfo?
    ensures Mirrors(Removal(w, w.backend.value, id, answer))
       <==> !(answer == Failure(true) && NamesTracked(w.session, w.session.responses[id]))
  {
    var s := w.session;
    var info := s.responses[id];
    WithoutChanges(s.functionBps, NameIndex(s.functionBps, info.function_));
    var v := Removal(w, w.backend.value, id, answer);
    assert v.session.sourceBps == s.sourceBps && v.backend.value.files == w.backend.value.files;
  }

  lemma WithoutChanges<T>(s: seq<T>, i: nat)
    ensures Without(s, i) == s <==> i >= |s|
  {
    if i < |s| { assert |Without(s, i)| == |s| - 1; }
  }

  lemma LaunchMirrors(w: World, program: string, start: Start)
    requires Mirrors(w) && w.session.state == Idle
    ensures Mirrors(LaunchTo(w, program, start)) && Mirrors(AttachTo(w, program, start))
  {
    if start.Up? {
      var s := w.session;
      var t := s.Flushed();
      forall f ensures ListOf(t.sourceBps, f) == ListOf(s.pendingSource, f) {}
      assert t.functionBps == s.pendingFunction;
    }
  }

  lemma QuietMirrors(w: World, call: Call)
    requires Mirrors(w) && (call.Disconnect? || call.Resume? || call.PumpEnds?)
    ensures Mirrors(After(w, call))
  {
    var v := After(w, call);
    if v.backend.Some? {
      assert v.session.sourceBps == w.session.sourceBps && v.session.functionBps == w.session.functionBps;
    }
  }

  /** A call keeps the mirror if and only if the adapter does not change its list untold. */
  lemma CallKeepsMirrorIff(w: World, call: Call)
    requires Mirrors(w)
    ensures Mirrors(After(w, call)) <==> !Untold(w, call)
  {
    match call {
      case SetBreakpoint(file, line, condition, answer) =>
        if Reaches(w, call) { SetSourceMirrors(w, file.value, line.value, condition, answer); }
      case SetFunction(name, condition, answer) =>
        if Reaches(w, call) { SetFunctionMirrors(w, name.value, condition, answer); }
      case Remove(id, answer) =>
        if Reaches(w, call) {
          if w.session.responses[id.value].SourceInfo? { RemoveSourceMirrors(w, id.value, answer); }
          else { RemoveFunctionMirrors(w, id.value, answer); }
        }
      case Launch(program, start) =>
        if w.session.state == Idle && program.Some? { LaunchMirrors(w, program.value, start); }
      case Attach(target, start) =>
        if w.session.state == Idle && target.Some? { LaunchMirrors(w, target.value, start); }
      case _ => QuietMirrors(w, call);
    }
  }

  ghost predicate AlwaysMirrors(calls: seq<Call>) {
    forall k | 0 <= k <= |calls| :: Mirrors(RunCalls(Begin(), calls[..k]))
  }

  ghost predicate NeverUntold(calls: seq<Call>) {
    forall k | 0 <= k < |calls| :: !Untold(RunCalls(Begin(), calls[..k]), calls[k])
  }

  lemma RunNext(calls: seq<Call>, k: nat)
    requires k < |calls|
    ensures RunCalls(Begin(), calls[..k + 1]) == After(RunCalls(Begin(), calls[..k]), calls[k])
  {
    assert calls[..k + 1][..k] == calls[..k];
  }

  lemma {:induction false} MirrorsUntil(calls: seq<Call>, k: nat)
    requires k <= |calls| && NeverUntold(calls)
    ensures Mirrors(RunCalls(Begin(), calls[..k]))
  {
    if k > 0 {
      MirrorsUntil(calls, k - 1);
      RunNext(calls, k - 1);
      CallKeepsMirrorIff(RunCalls(Begin(), calls[..k - 1]), calls[k - 1]);
    }
  }

  /**
   * Over every run of calls, failing ones included: the tracked lists are at every point the
   * lists the adapter took over last (none in idle), if and only if it never changes one untold.
   */
  lemma MirrorOverEveryRunIff(calls: seq<Call>)
    ensures AlwaysMirrors(calls) <==> NeverUntold(calls)
  {
    if NeverUntold(calls) {
      forall k | 0 <= k <= |calls| ensures Mirrors(RunCalls(Begin(), calls[..k])) {
        MirrorsUntil(calls, k);
      }
    }
    if AlwaysMirrors(calls) {
      forall k | 0 <= k < |calls| ensures !Untold(RunCalls(Begin(), calls[..k]), calls[k]) {
        RunNext(calls, k);
        assert Mirrors(RunCalls(Begin(), calls[..k])) && Mirrors(RunCalls(Begin(), calls[..k + 1]));
        CallKeepsMirrorIff(RunCalls(Begin(), calls[..k]), calls[k]);
      }
    }
  }

  /** The number of breakpoints a call sends to the adapter. */
  function Requested(w: World, call: Call): nat
    requires Reaches(w, call)
  {
    match call
    case SetBreakpoint(file, _, _, _) => |ListOf(w.session.sourceBps, file.value)| + 1
    case SetFunction(_, _, _) => |w.session.functionBps| + 1
    case Remove(id, _) =>
      var info := w.session.responses[id.value];
      if info.SourceInfo? then |RemainingSource(w.session, info)| else |RemainingFunctions(w.session, info)|
  }

  function AnswerOf(call: Call): Answer
    requires IsBreakpointCall(call)
  {
    match call
    case SetBreakpoint(_, _, _, answer) => answer
    case SetFunction(_, _, answer) => answer
    case Remove(_, answer) => answer
  }

  /** One result for each breakpoint sent, or a rejection that leaves the adapter's list as it was. */
  predicate Honest(w: World, call: Call) {
    Reaches(w, call) ==>
      var answer := AnswerOf(call);
      if answer.Results? then |answer.results| == Requested(w, call) else !answer.installed
  }

  /** Against an adapter that answers honestly, the lists agree at every point of every run. */
  lemma HonestAdapterMirrored(calls: seq<Call>)
    requires forall k | 0 <= k < |calls| :: Honest(RunCalls(Begin(), calls[..k]), calls[k])
    ensures AlwaysMirrors(calls)
  {
    forall k | 0 <= k < |calls| ensures !Untold(RunCalls(Begin(), calls[..k]), calls[k]) {
      assert Honest(RunCalls(Begin(), calls[..k]), calls[k]);
    }
    MirrorOverEveryRunIff(calls);
  }

  predicate Rejects(call: Call) {
    match call
    case SetBreakpoint(_, _, _, answer) => answer == Failure(false)
    case SetFunction(_, _, answer) => answer == Failure(false)
    case Remove(_, answer) => answer == Failure(false)
    case _ => false
  }

  predicate IsBreakpointCall(call: Call) {
    call.SetBreakpoint? || call.SetFunction? || call.Remove?
  }

  /** Outside idle, a call that does not reach the adapter, or that it rejects, changes nothing at all. */
  lemma RejectedCallsChangeNothing(w: World, call: Call)
    requires IsBreakpointCall(call) && w.session.state != Idle && (!Reaches(w, call) || Rejects(call))
    ensures After(w, call) == w
  {
  }

  // ----- what a removal removes

  /** The adapter's lists a removal of `info` would touch. */
  function Count(w: World, info: BpInfo): nat
    requires w.backend.Some?
  {
    match info
    case SourceInfo(_, file, _, _, _) => |ListOf(w.backend.value.files, file)|
    case FunctionInfo(_, _, _, _) => |w.backend.value.functions|
  }

  /**
   * A removal that is answered `removed` takes one breakpoint off the adapter if and only if
   * the line (or name) on record still names a tracked one; otherwise it takes off none.
   */
  lemma RemovalRemovesIff(w: World, id: int, results: seq<BpResult>)
    requires Mirrors(w) && Reaches(w, Remove(Some(id), Results(results)))
    ensures var v := After(w, Remove(Some(id), Results(results)));
            var info := w.session.responses[id];
            && id !in v.session.responses
            && Count(v, info) == Count(w, info) - if NamesTracked(w.session, info) then 1 else 0
  {
    var info, s, a := w.session.responses[id], w.session, w.backend.value;
    if info.SourceInfo? {
      assert ListOf(s.sourceBps, info.file) == ListOf(a.files, info.file);
    }
  }

  /** Every entry from the first with that line on is the new breakpoint. */
  predicate OnlyCopies(bps: seq<SourceBp>, bp: SourceBp) {
    forall i | LineIndex(bps, bp.line) <= i < |bps| :: bps[i] == bp
  }

  lemma {:induction false} AllSame(bps: seq<SourceBp>, bp: SourceBp, i: nat, j: nat)
    requires i <= j < |bps| && Without(bps + [bp], i) == bps
    ensures bps[j] == bp
    decreases |bps| - j
  {
    assert Without(bps + [bp], i)[j] == (bps + [bp])[j + 1];
    if j + 1 < |bps| { AllSame(bps, bp, i, j + 1); }
  }

  lemma LineIndexAppend(bps: seq<SourceBp>, bp: SourceBp, line: int)
    ensures var i := LineIndex(bps + [bp], line);
            if LineIndex(bps, line) < |bps| then i == LineIndex(bps, line)
            else if bp.line == line then i == |bps| else i == |bps| + 1
  {
    var i, j := LineIndex(bps + [bp], line), LineIndex(bps, line);
    assert forall k | 0 <= k < |bps| :: (bps + [bp])[k] == bps[k];
    if j < |bps| {
      assert (bps + [bp])[j].line == line;
      assert i <= j;
      assert (bps + [bp])[i].line == line;
      assert i >= j;
    } else {
      assert (bps + [bp])[|bps|] == bp;
    }
  }

  /**
   * Setting a breakpoint and removing it by the id it got restores the file's list if and only
   * if the adapter kept the line and every entry from the first with that line on is the same.
   */
  lemma UndoneIff(bps: seq<SourceBp>, bp: SourceBp, line: int)
    ensures Without(bps + [bp], LineIndex(bps + [bp], line)) == bps <==> line == bp.line && OnlyCopies(bps, bp)
  {
    var all := bps + [bp];
    var i := LineIndex(all, line);
    LineIndexAppend(bps, bp, line);
    if Without(all, i) == bps {
      WithoutChanges(all, i);
      forall j | i <= j < |bps| ensures bps[j] == bp { AllSame(bps, bp, i, j); }
      assert all[i].line == line && (i == |bps| || bps[i] == bp);
    } else if line == bp.line && OnlyCopies(bps, bp) {
      CopiesUndo(bps, bp);
    }
  }

  lemma CopiesUndo(bps: seq<SourceBp>, bp: SourceBp)
    requires OnlyCopies(bps, bp)
    ensures Without(bps + [bp], LineIndex(bps + [bp], bp.line)) == bps
  {
    LineIndexAppend(bps, bp, bp.line);
    var i := LineIndex(bps + [bp], bp.line);
    var r := Without(bps + [bp], i);
    forall j | 0 <= j < |bps| ensures r[j] == bps[j] {
      if j >= i { assert r[j] == (bps + [bp])[j + 1] == bp; }
    }
  }

  /** The same of the two calls, made one after the other against any adapter that accepts both. */
  lemma SetThenRemoveRestoresIff(w: World, file: string, line: int, condition: string, results: seq<BpResult>, others: seq<BpResult>)
    requires Mirrors(w) && w.session.state == State.Stopped && results != []
    ensures var m := Matched(results, line);
            var v := RunCalls(w, [SetBreakpoint(Some(file), Some(line), condition, Results(results)), Remove(Some(m.id), Results(others))]);
            var bps := ListOf(w.session.sourceBps, file);
            && Mirrors(v) && v.backend.Some?
            && (ListOf(v.backend.value.files, file) == bps <==> m.line == line && OnlyCopies(bps, SourceBp(line, condition)))
  {
    var m := Matched(results, line);
    var set_, remove := SetBreakpoint(Some(file), Some(line), condition, Results(results)), Remove(Some(m.id), Results(others));
    var u := After(w, set_);
    RunTwo(w, set_, remove);
    CallKeepsMirrorIff(w, set_);
    CallKeepsMirrorIff(u, remove);
    var bps := ListOf(w.session.sourceBps, file);
    assert ListOf(u.session.sourceBps, file) == bps + [SourceBp(line, condition)];
    UndoneIff(bps, SourceBp(line, condition), m.line);
  }

  // ----- the same for function breakpoints

  /** Every entry from the first with that name on is the new breakpoint. */
  predicate OnlyFunctionCopies(bps: seq<FunctionBp>, bp: FunctionBp) {
    forall i | NameIndex(bps, bp.name) <= i < |bps| :: bps[i] == bp
  }

  lemma {:induction false} AllSameFunctions(bps: seq<FunctionBp>, bp: FunctionBp, i: nat, j: nat)
    requires i <= j < |bps| && Without(bps + [bp], i) == bps
    ensures bps[j] == bp
    decreases |bps| - j
  {
    assert Without(bps + [bp], i)[j] == (bps + [bp])[j + 1];
    if j + 1 < |bps| { AllSameFunctions(bps, bp, i, j + 1); }
  }

  lemma NameIndexAppend(bps: seq<FunctionBp>, bp: FunctionBp)
    ensures NameIndex(bps + [bp], bp.name) == NameIndex(bps, bp.name)
  {
    var i, j := NameIndex(bps + [bp], bp.name), NameIndex(bps, bp.name);
    assert forall k | 0 <= k < |bps| :: (bps + [bp])[k] == bps[k];
    assert (bps + [bp])[|bps|] == bp;
    assert (bps + [bp])[j].name == bp.name;
    assert i <= j;
  }

  lemma FunctionUndoneIff(bps: seq<FunctionBp>, bp: FunctionBp)
    ensures Without(bps + [bp], NameIndex(bps + [bp], bp.name)) == bps <==> OnlyFunctionCopies(bps, bp)
  {
    var all := bps + [bp];
    var i := NameIndex(all, bp.name);
    NameIndexAppend(bps, bp);
    if Without(all, i) == bps {
      forall j | i <= j < |bps| ensures bps[j] == bp { AllSameFunctions(bps, bp, i, j); }
    } else if OnlyFunctionCopies(bps, bp) {
      FunctionCopiesUndo(bps, bp);
    }
  }

  lemma FunctionCopiesUndo(bps: seq<FunctionBp>, bp: FunctionBp)
    requires OnlyFunctionCopies(bps, bp)
    ensures Without(bps + [bp], NameIndex(bps + [bp], bp.name)) == bps
  {
    NameIndexAppend(bps, bp);
    var i := NameIndex(bps + [bp], bp.name);
    var r := Without(bps + [bp], i);
    forall j | 0 <= j < |bps| ensures r[j] == bps[j] {
      if j >= i { assert r[j] == (bps + [bp])[j + 1] == bp; }
    }
  }

  /** Setting a function breakpoint and removing it by its id restores the list iff every entry from the first of that name on is the same. */
  lemma SetFunctionThenRemoveRestoresIff(w: World, name: string, condition: string, results: seq<BpResult>, others: seq<BpResult>)
    requires Mirrors(w) && w.session.state == State.Stopped && results != []
    ensures var id := results[|results| - 1].id;
            var v := RunCalls(w, [SetFunction(Some(name), condition, Results(results)), Remove(Some(id), Results(others))]);
            && Mirrors(v) && v.backend.Some?
            && (v.backend.value.functions == w.session.functionBps <==> OnlyFunctionCopies(w.session.functionBps, FunctionBp(name, condition)))
  {
    var id := results[|results| - 1].id;
    var set_, remove := SetFunction(Some(name), condition, Results(results)), Remove(Some(id), Results(others));
    var u := After(w, set_);
    RunTwo(w, set_, remove);
    CallKeepsMirrorIff(w, set_);
    CallKeepsMirrorIff(u, remove);
    FunctionUndoneIff(w.session.functionBps, FunctionBp(name, condition));
  }

  lemma RunTwo(w: World, a: Call, b: Call)
    ensures RunCalls(w, [a, b]) == After(After(w, a), b)
  {
    RunOne(w, a);
    assert [a, b][..1] == [a];
  }

  lemma RunOne(w: World, a: Call)
    ensures RunCalls(w, [a]) == After(w, a)
  {
    assert [a][..0] == [];
  }

  /** So a breakpoint the adapter moved to another line cannot be removed: it answers `removed`, and is still set. */
  lemma MovedBreakpointStays(w: World, file: string, line: int, moved: int, others: seq<BpResult>)
    requires Mirrors(w) && w.session.state == State.Stopped && ListOf(w.session.sourceBps, file) == [] && moved != line
    ensures var v := RunCalls(w, [SetBreakpoint(Some(file), Some(line), "", Results([BpResult(1, moved, true)])), Remove(Some(1), Results(others))]);
            && v.backend.Some? && ListOf(v.backend.value.files, file) == [SourceBp(line, "")] && 1 !in v.session.responses
  {
    var results := [BpResult(1, moved, true)];
    var set_, remove := SetBreakpoint(Some(file), Some(line), "", Results(results)), Remove(Some(1), Results(others));
    assert Matched(results, line) == results[0];
    RunTwo(w, set_, remove);
    var u := After(w, set_);
    var bps := [SourceBp(line, "")];
    assert ListOf(u.session.sourceBps, file) == bps;
    assert LineIndex(bps, moved) == 1 by { assert bps[0].line != moved; }
  }

  // ----- what becomes of breakpoints set before a start

  /** The breakpoints for one file asked for by the calls, in order. */
  function AskedFor(calls: seq<Call>, file: string): seq<SourceBp> {
    if calls == [] then []
    else
      var c := calls[|calls| - 1];
      AskedFor(calls[..|calls| - 1], file)
      + if c.SetBreakpoint? && c.file == Some(file) && c.line.Some? then [SourceBp(c.line.value, c.condition)] else []
  }

  function FunctionsAskedFor(calls: seq<Call>): seq<FunctionBp> {
    if calls == [] then []
    else
      var c := calls[|calls| - 1];
      FunctionsAskedFor(calls[..|calls| - 1])
      + if c.SetFunction? && c.name.Some? then [FunctionBp(c.name.value, c.condition)] else []
  }

  lemma {:induction false} PendingCollects(g: nat, calls: seq<Call>, file: string)
    requires forall i | 0 <= i < |calls| :: IsBreakpointCall(calls[i])
    ensures var w := RunCalls(World(Fresh(g), None), calls);
            && w.session.state == Idle && w.backend == None && NothingTracked(w.session)
            && ListOf(w.session.pendingSource, file) == AskedFor(calls, file)
            && w.session.pendingFunction == FunctionsAskedFor(calls)
  {
    if calls != [] {
      PendingCollects(g, calls[..|calls| - 1], file);
      assert IsBreakpointCall(calls[|calls| - 1]);
    }
  }

  /**
   * Breakpoints set in an idle session reach the adapter with the next successful launch, file
   * by file and in order, but no id is on record by which one could be removed; after an
   * attach the adapter has none of them.
   */
  lemma StartInstalls(g: nat, calls: seq<Call>, name: string, pid: Option<int>, outcome: StartOutcome, file: string)
    requires forall i | 0 <= i < |calls| :: IsBreakpointCall(calls[i])
    ensures var w := RunCalls(World(Fresh(g), None), calls);
            var launched := After(w, Launch(Some(name), Up(pid, outcome)));
            var attached := After(w, Attach(Some(name), Up(pid, outcome)));
            && launched.backend.Some? && attached.backend.Some?
            && ListOf(launched.backend.value.files, file) == AskedFor(calls, file)
            && launched.backend.value.functions == FunctionsAskedFor(calls)
            && launched.session.responses == map[]
            && attached.backend.value == Adapter(map[], [])
            && ListOf(attached.session.pendingSource, file) == AskedFor(calls, file)
  {
    PendingCollects(g, calls, file);
  }

  /** Once a session is up, pending breakpoints stay pending until it is shut down. */
  lemma PendingStays(w: World, call: Call)
    requires w.session.state != Idle && !call.Disconnect?
    ensures After(w, call).session.pendingSource == w.session.pendingSource
    ensures After(w, call).session.pendingFunction == w.session.pendingFunction
    ensures After(w, call).session.state != Idle
  {
    if IsBreakpointCall(call) { SettingKeepsPending(w, call); }
  }

  lemma SettingKeepsPending(w: World, call: Call)
    requires w.session.state != Idle && IsBreakpointCall(call)
    ensures After(w, call).session.pendingSource == w.session.pendingSource
    ensures After(w, call).session.pendingFunction == w.session.pendingFunction
    ensures After(w, call).session.state == w.session.state
  {
  }

  lemma {:induction false} PendingStrands(w: World, calls: seq<Call>)
    requires w.session.state != Idle && forall i | 0 <= i < |calls| :: !calls[i].Disconnect?
    ensures var v := RunCalls(w, calls);
            && v.session.pendingSource == w.session.pendingSource && v.session.pendingFunction == w.session.pendingFunction
            && v.session.state != Idle
            && After(v, Call.Disconnect).session.pendingSource == map[]
  {
    if calls != [] {
      PendingStrands(w, calls[..|calls| - 1]);
      PendingStays(RunCalls(w, calls[..|calls| - 1]), calls[|calls| - 1]);
    }
  }
}
