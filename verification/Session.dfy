/** The session (`mcp-session/src/manager.rs`) and the event pump that writes to it (`mcp-session/src/pump.rs`). */
module Sessions {
  import opened Types
  import OB = OutputBuffers

  datatype State = Idle | Configuring | Stopped | Running | Terminated

  datatype SourceBp = SourceBp(line: int, condition: string)

  datatype FunctionBp = FunctionBp(name: string, condition: string)

  /** What the debugger said about one breakpoint; source ones are found by line, function ones by name. */
  datatype BpInfo =
    | SourceInfo(id: int, file: string, line: int, condition: string, verified: bool)
    | FunctionInfo(id: int, function_: string, condition: string, verified: bool)

  /** The first entry with that line, or the length of the list. */
  function LineIndex(bps: seq<SourceBp>, line: int): (i: nat)
    ensures i <= |bps| && (i < |bps| ==> bps[i].line == line)
    ensures forall j | 0 <= j < i :: bps[j].line != line
  {
    if bps == [] || bps[0].line == line then 0 else 1 + LineIndex(bps[1..], line)
  }

  function NameIndex(bps: seq<FunctionBp>, name: string): (i: nat)
    ensures i <= |bps| && (i < |bps| ==> bps[i].name == name)
    ensures forall j | 0 <= j < i :: bps[j].name != name
  {
    if bps == [] || bps[0].name == name then 0 else 1 + NameIndex(bps[1..], name)
  }

  /** The list without its i-th entry, if it has one. */
  function Without<T>(s: seq<T>, i: nat): (r: seq<T>)
    ensures i >= |s| ==> r == s
    ensures i < |s| ==>
              && |r| == |s| - 1 && (forall j | 0 <= j < i :: r[j] == s[j]) && (forall j | i <= j < |r| :: r[j] == s[j + 1])
  {
    if i < |s| then s[..i] + s[i + 1..] else s
  }

  function ListOf<T>(m: map<string, seq<T>>, file: string): seq<T> {
    if file in m then m[file] else []
  }

  /** Each file's list in `b` appended to its list in `a`. */
  function Extended<T>(a: map<string, seq<T>>, b: map<string, seq<T>>): map<string, seq<T>> {
    map f | f in a.Keys + b.Keys :: ListOf(a, f) + ListOf(b, f)
  }

  /** The files in `moved` have their lists of `b` behind their lists of `a` in `t`, the others not. */
  ghost predicate Moved<T>(t: map<string, seq<T>>, a: map<string, seq<T>>, b: map<string, seq<T>>, moved: set<string>) {
    && moved <= b.Keys && t.Keys == a.Keys + moved
    && forall f | f in t :: t[f] == ListOf(a, f) + (if f in moved then b[f] else [])
  }

  lemma MoveOne<T>(t: map<string, seq<T>>, a: map<string, seq<T>>, b: map<string, seq<T>>, moved: set<string>, file: string)
    requires Moved(t, a, b, moved) && file in b && file !in moved
    ensures Moved(t[file := ListOf(t, file) + b[file]], a, b, moved + {file})
  {
    assert ListOf(t, file) == ListOf(a, file);
  }

  lemma AllMoved<T>(t: map<string, seq<T>>, a: map<string, seq<T>>, b: map<string, seq<T>>, moved: set<string>)
    requires Moved(t, a, b, moved) && forall f | f in b :: f in moved
    ensures t == Extended(a, b)
  {
  }

  /** What the session lock protects. */
  datatype Inner = Inner(
    state: State,
    generation: nat,
    program: string,
    pid: int,
    exitCode: Option<int>,
    lastStopped: Option<StopInfo>,
    frames: map<int, int>,
    sourceBps: map<string, seq<SourceBp>>,
    functionBps: seq<FunctionBp>,
    responses: map<int, BpInfo>,
    pendingSource: map<string, seq<SourceBp>>,
    pendingFunction: seq<FunctionBp>)
  {
    function Reset(): Inner {
      Fresh((generation + 1) % TWO64)
    }

    function SetStateIf(g: nat, to: State): Inner {
      if generation == g then this.(state := to) else this
    }

    function TerminateIf(g: nat, code: Option<int>): Inner {
      if generation == g then this.(state := State.Terminated, exitCode := if code.Some? then code else exitCode) else this
    }

    /** The removal of the breakpoint that carries `info`, which is forgotten with it. */
    function Removed(id: int, info: BpInfo): Inner {
      match info
      case SourceInfo(_, file, line, _, _) =>
        this.(responses := responses - {id},
              sourceBps := if file in sourceBps
                           then sourceBps[file := Without(sourceBps[file], LineIndex(sourceBps[file], line))]
                           else sourceBps)
      case FunctionInfo(_, name, _, _) =>
        this.(responses := responses - {id}, functionBps := Without(functionBps, NameIndex(functionBps, name)))
    }

    function Flushed(): Inner {
      this.(sourceBps := Extended(sourceBps, pendingSource), functionBps := functionBps + pendingFunction,
            pendingSource := map[], pendingFunction := [])
    }
  }

  function Fresh(generation: nat): Inner {
    Inner(Idle, generation, "", 0, None, None, map[], map[], [], map[], map[], [])
  }

  /** What `launch` and `attach` find when the handshake is through. */
  datatype StartOutcome = EntryStop(info: StopInfo) | LeftRunning | EndedEarly

  datatype BackendEvent = Output(category: string, text: string) | Ended(code: Option<int>)

  function OutputsIn(events: seq<BackendEvent>): seq<OB.Entry> {
    if events == [] then []
    else
      OutputsIn(events[..|events| - 1]) + OutputOf(events[|events| - 1])
  }

  function OutputOf(event: BackendEvent): seq<OB.Entry> {
    if event.Output? then [OB.Entry(event.category, event.text)] else []
  }

  /** The last exit code that came with a termination. */
  function LastCode(events: seq<BackendEvent>, before: Option<int>): Option<int> {
    if events == [] then before
    else
      var e := events[|events| - 1];
      if e.Ended? && e.code.Some? then e.code else LastCode(events[..|events| - 1], before)
  }

  class SessionManager {
    var inner: Inner
    const output: OB.OutputBuffer

    constructor ()
      ensures inner == Fresh(0) && fresh(output) && output.Valid() && output.history == []
    {
      inner := Fresh(0);
      output := new OB.OutputBuffer();
    }

    method SetState(state: State)
      modifies this
      ensures inner == old(inner).(state := state)
    {
      inner := inner.(state := state);
    }

    /** Takes effect, and says so, exactly when the generation is still the one given. */
    method SetStateIfGeneration(generation: nat, state: State) returns (applied: bool)
      modifies this
      ensures applied <==> generation == old(inner).generation
      ensures inner == if applied then old(inner).(state := state) else old(inner)
      ensures inner == old(inner).SetStateIf(generation, state)
    {
      if inner.generation != generation {
        return false;
      }
      inner := inner.(state := state);
      applied := true;
    }

    method TerminateIfGeneration(generation: nat, code: Option<int>) returns (applied: bool)
      modifies this
      ensures applied <==> generation == old(inner).generation
      ensures !applied ==> inner == old(inner)
      ensures applied ==>
                inner == old(inner).(state := State.Terminated, exitCode := if code.Some? then code else old(inner).exitCode)
      ensures inner == old(inner).TerminateIf(generation, code)
    {
      if inner.generation != generation {
        return false;
      }
      if code.Some? {
        inner := inner.(exitCode := code);
      }
      inner := inner.(state := State.Terminated);
      applied := true;
    }

    /** Everything back to a new session but the generation, which moves on and wraps. */
    method Reset()
      requires output.Valid()
      modifies this, output
      ensures inner == old(inner).Reset() && output.Valid() && output.history == []
      ensures inner.state == Idle && inner.generation == (old(inner).generation + 1) % TWO64
      ensures inner.program == "" && inner.pid == 0 && inner.exitCode == None && inner.lastStopped == None
      ensures inner.frames == map[] && inner.sourceBps == map[] && inner.functionBps == [] && inner.responses == map[]
      ensures inner.pendingSource == map[] && inner.pendingFunction == []
    {
      inner := inner.(
        state := Idle, generation := (inner.generation + 1) % TWO64, program := "", pid := 0,
        exitCode := None, lastStopped := None, frames := map[], sourceBps := map[], functionBps := [],
        responses := map[], pendingSource := map[], pendingFunction := []);
      assert inner == old(inner).Reset();
      var _ := output.Drain();
    }

    method SetProcess(program: string, pid: Option<int>)
      modifies this
      ensures inner == old(inner).(program := program, pid := if pid.Some? then pid.value else old(inner).pid)
    {
      inner := inner.(program := program);
      if pid.Some? {
        inner := inner.(pid := pid.value);
      }
    }

    method SetLastStopped(info: StopInfo)
      modifies this
      ensures inner == old(inner).(lastStopped := Some(info))
    {
      inner := inner.(lastStopped := Some(info));
    }

    method AddSourceBreakpoint(file: string, line: int, condition: string)
      modifies this
      ensures inner == old(inner).(sourceBps :=
                old(inner).sourceBps[file := ListOf(old(inner).sourceBps, file) + [SourceBp(line, condition)]])
    {
      var list := ListOf(inner.sourceBps, file);
      inner := inner.(sourceBps := inner.sourceBps[file := list + [SourceBp(line, condition)]]);
    }

    method AddFunctionBreakpoint(name: string, condition: string)
      modifies this
      ensures inner == old(inner).(functionBps := old(inner).functionBps + [FunctionBp(name, condition)])
    {
      inner := inner.(functionBps := inner.functionBps + [FunctionBp(name, condition)]);
    }

    method AddBreakpointResponse(info: BpInfo)
      modifies this
      ensures inner == old(inner).(responses := old(inner).responses[info.id := info])
    {
      inner := inner.(responses := inner.responses[info.id := info]);
    }

    method AddPendingSource(file: string, line: int, condition: string)
      modifies this
      ensures inner == old(inner).(pendingSource :=
                old(inner).pendingSource[file := ListOf(old(inner).pendingSource, file) + [SourceBp(line, condition)]])
    {
      var list := ListOf(inner.pendingSource, file);
      inner := inner.(pendingSource := inner.pendingSource[file := list + [SourceBp(line, condition)]]);
    }

    method AddPendingFunction(name: string, condition: string)
      modifies this
      ensures inner == old(inner).(pendingFunction := old(inner).pendingFunction + [FunctionBp(name, condition)])
    {
      inner := inner.(pendingFunction := inner.pendingFunction + [FunctionBp(name, condition)]);
    }

    /** An unknown id changes nothing; a known one is removed with the first entry that matches it. */
    method RemoveBreakpointById(id: int) returns (found: bool)
      modifies this
      ensures found <==> id in old(inner).responses
      ensures !found ==> inner == old(inner)
      ensures found ==> inner == old(inner).Removed(id, old(inner).responses[id])
      ensures found ==> inner.responses == old(inner).responses - {id}
      ensures found && old(inner).responses[id].SourceInfo? ==>
                var file, line := old(inner).responses[id].file, old(inner).responses[id].line;
                var bps := ListOf(old(inner).sourceBps, file);
                && ListOf(inner.sourceBps, file) == Without(bps, LineIndex(bps, line))
                && (forall f | f != file :: ListOf(inner.sourceBps, f) == ListOf(old(inner).sourceBps, f))
                && inner.functionBps == old(inner).functionBps
      ensures found && old(inner).responses[id].FunctionInfo? ==>
                var bps := old(inner).functionBps;
                && inner.functionBps == Without(bps, NameIndex(bps, old(inner).responses[id].function_))
                && inner.sourceBps == old(inner).sourceBps
    {
      if id !in inner.responses {
        return false;
      }
      var info := inner.responses[id];
      match info {
        case SourceInfo(_, file, line, _, _) =>
          if file in inner.sourceBps {
            var bps := inner.sourceBps[file];
            var i := 0;
            while i < |bps| && bps[i].line != line
              invariant i <= |bps| && forall j | 0 <= j < i :: bps[j].line != line
            {
              i := i + 1;
            }
            inner := inner.(sourceBps := inner.sourceBps[file := Without(bps, i)]);
          }
        case FunctionInfo(_, name, _, _) =>
          var bps := inner.functionBps;
          var i := 0;
          while i < |bps| && bps[i].name != name
            invariant i <= |bps| && forall j | 0 <= j < i :: bps[j].name != name
          {
            i := i + 1;
          }
          inner := inner.(functionBps := Without(bps, i));
      }
      inner := inner.(responses := inner.responses - {id});
      found := true;
    }

    /**
     * The pending lists move behind the tracked ones and are handed out. `order` is the order
     * in which the hash map happens to give its files; it makes no difference.
     */
    method FlushPending(order: seq<string>) returns (source: map<string, seq<SourceBp>>, functions: seq<FunctionBp>)
      requires forall f :: f in order <==> f in inner.pendingSource
      requires forall i, j | 0 <= i < j < |order| :: order[i] != order[j]
      modifies this
      ensures source == old(inner).pendingSource && functions == old(inner).pendingFunction
      ensures inner == old(inner).Flushed()
      ensures inner.pendingSource == map[] && inner.pendingFunction == []
      ensures inner.functionBps == old(inner).functionBps + old(inner).pendingFunction
      ensures forall f :: ListOf(inner.sourceBps, f) == ListOf(old(inner).sourceBps, f) + ListOf(old(inner).pendingSource, f)
    {
      source, functions := inner.pendingSource, inner.pendingFunction;
      inner := inner.(pendingSource := map[], pendingFunction := []);
      var tracked := inner.sourceBps;
      ghost var moved: set<string> := {};
      for i := 0 to |order|
        invariant inner == old(inner).(pendingSource := map[], pendingFunction := [])
        invariant Moved(tracked, old(inner).sourceBps, source, moved)
        invariant forall f | f in source :: f in moved || f in order[i..]
        invariant forall j | i <= j < |order| :: order[j] !in moved
      {
        var file := order[i];
        MoveOne(tracked, old(inner).sourceBps, source, moved, file);
        tracked := tracked[file := ListOf(tracked, file) + source[file]];
        moved := moved + {file};
      }
      AllMoved(tracked, old(inner).sourceBps, source, moved);
      inner := inner.(sourceBps := tracked);
      inner := inner.(functionBps := inner.functionBps + functions);
    }

    /**
     * The event pump, run to the end of its stream with no one else at work. Output always
     * arrives; of the rest only a termination is recorded, and only under its own generation.
     */
    method Pump(events: seq<BackendEvent>, generation: nat)
      requires output.Valid()
      modifies this, output
      ensures output.Valid() && output.history == old(output.history) + OutputsIn(events)
      ensures generation != old(inner).generation ==> inner == old(inner)
      ensures generation == old(inner).generation ==> inner == old(inner).(
                state := if Ends(events) then State.Terminated else old(inner).state,
                exitCode := LastCode(events, old(inner).exitCode))
    {
      DrainEvents(events, generation);
      PumpedIs(old(inner), events, generation);
    }

    /** The pump's loop. */
    method DrainEvents(events: seq<BackendEvent>, generation: nat)
      requires output.Valid()
      modifies this, output
      ensures output.Valid() && output.history == old(output.history) + OutputsIn(events)
      ensures inner == Pumped(old(inner), events, generation)
    {
      ghost var start, printed := inner, output.history;
      for i := 0 to |events|
        invariant output.Valid() && output.history == printed + OutputsIn(events[..i])
        invariant inner == Pumped(start, events[..i], generation)
      {
        PumpStep(start, events, i, generation);
        HandleEvent(events[i], generation);
      }
      assert events[..|events|] == events;
    }

    /** One event of the pump's stream. */
    method HandleEvent(event: BackendEvent, generation: nat)
      requires output.Valid()
      modifies this, output
      ensures output.Valid() && output.history == old(output.history) + OutputOf(event)
      ensures inner == PumpedBy(old(inner), event, generation)
    {
      match event {
        case Output(category, text) =>
          output.Append(OB.Entry(category, text));
        case Ended(code) =>
          var _ := TerminateIfGeneration(generation, code);
      }
    }
  }

  function Pumped(inner: Inner, events: seq<BackendEvent>, generation: nat): Inner {
    if events == [] then inner
    else PumpedBy(Pumped(inner, events[..|events| - 1], generation), events[|events| - 1], generation)
  }

  function PumpedBy(inner: Inner, event: BackendEvent, generation: nat): Inner {
    match event
    case Output(_, _) => inner
    case Ended(code) => inner.TerminateIf(generation, code)
  }

  lemma PumpStep(inner: Inner, events: seq<BackendEvent>, i: nat, generation: nat)
    requires i < |events|
    ensures Pumped(inner, events[..i + 1], generation) == PumpedBy(Pumped(inner, events[..i], generation), events[i], generation)
    ensures OutputsIn(events[..i + 1]) == OutputsIn(events[..i]) + OutputOf(events[i])
  {
    assert events[..i + 1][..i] == events[..i];
  }

  predicate Ends(events: seq<BackendEvent>) {
    exists i :: 0 <= i < |events| && events[i].Ended?
  }

  /** A pump changes nothing under another generation, and at most the state and exit code under its own. */
  lemma {:induction false} PumpedIs(inner: Inner, events: seq<BackendEvent>, generation: nat)
    ensures generation != inner.generation ==> Pumped(inner, events, generation) == inner
    ensures generation == inner.generation ==> Pumped(inner, events, generation) == inner.(
              state := if Ends(events) then State.Terminated else inner.state,
              exitCode := LastCode(events, inner.exitCode))
  {
    if events != [] {
      var last := |events| - 1;
      PumpedIs(inner, events[..last], generation);
      assert Ends(events) <==> Ends(events[..last]) || events[last].Ended? by {
        if Ends(events[..last]) {
          var i :| 0 <= i < last && events[..last][i].Ended?;
          assert events[i].Ended?;
        }
        if Ends(events) && !events[last].Ended? {
          var i :| 0 <= i < |events| && events[i].Ended?;
          assert events[..last][i].Ended?;
        }
      }
    }
  }
}
