/**
 * Breakpoint calls on one file that overlap (`handlers/breakpoints.rs`): each reads the tracked
 * list, sends the list it proposes, and commits its own change to whatever is tracked by then.
 * The function list is treated in the same way.
 */
module OverlappingBreakpoints {
  import opened Types
  import opened S = Sessions

  /** What the session knows of a file: the tracked list, and the line on record for each id. */
  datatype Book = Book(list: seq<SourceBp>, lines: map<int, int>)

  /** A new breakpoint with the id and line the adapter gives it, or the removal of one by id. */
  datatype Edit = Add(bp: SourceBp, id: int, line: int) | Drop(id: int)

  /** A removal goes by the line on record, first match; an id that is gone changes nothing. */
  function Apply(book: Book, edit: Edit): Book {
    match edit
    case Add(bp, id, line) => Book(book.list + [bp], book.lines[id := line])
    case Drop(id) =>
      if id in book.lines then Book(Without(book.list, LineIndex(book.list, book.lines[id])), book.lines - {id}) else book
  }

  datatype Phase = Proposed | Accepted | Committed(at: nat) | Rejected

  /** A call: its change, the list it sends, and the number of commits there had been when it read. */
  datatype Handler = Handler(edit: Edit, proposal: seq<SourceBp>, seen: nat, phase: Phase)

  /** `log` holds the committed changes in order, `last` the call whose list the adapter took over last. */
  datatype Lists = Lists(
    book: Book, adapter: seq<SourceBp>, calls: seq<Handler>, log: seq<Edit>, last: Option<nat>)

  datatype Op = Read(edit: Edit) | Send(t: nat, ok: bool) | Commit(t: nat)

  function Start(book: Book): Lists {
    Lists(book, book.list, [], [], None)
  }

  function Step(s: Lists, op: Op): Lists {
    match op
    case Read(edit) =>
      if edit.Drop? && edit.id !in s.book.lines then s
      else s.(calls := s.calls + [Handler(edit, Apply(s.book, edit).list, |s.log|, Proposed)])
    case Send(t, ok) =>
      if t >= |s.calls| || !s.calls[t].phase.Proposed? then s
      else if ok then
        s.(adapter := s.calls[t].proposal, last := Some(t), calls := s.calls[t := s.calls[t].(phase := Accepted)])
      else s.(calls := s.calls[t := s.calls[t].(phase := Rejected)])
    case Commit(t) =>
      if t >= |s.calls| || !s.calls[t].phase.Accepted? then s
      else s.(book := Apply(s.book, s.calls[t].edit), log := s.log + [s.calls[t].edit],
              calls := s.calls[t := s.calls[t].(phase := Committed(|s.log|))])
  }

  function Run(book: Book, ops: seq<Op>): Lists {
    if ops == [] then Start(book) else Step(Run(book, ops[..|ops| - 1]), ops[|ops| - 1])
  }

  /** The book with the changes made in order. */
  function Applied(book: Book, log: seq<Edit>): Book {
    if log == [] then book else Apply(Applied(book, log[..|log| - 1]), log[|log| - 1])
  }

  predicate CallGood(book: Book, log: seq<Edit>, call: Handler) {
    && call.seen <= |log|
    && call.proposal == Apply(Applied(book, log[..call.seen]), call.edit).list
    && (call.phase.Committed? ==> call.seen <= call.phase.at < |log| && log[call.phase.at] == call.edit)
  }

  ghost predicate Good(book: Book, s: Lists) {
    && s.book == Applied(book, s.log)
    && (forall t | 0 <= t < |s.calls| :: CallGood(book, s.log, s.calls[t]))
    && (s.last.None? ==>
          s.adapter == book.list && s.log == [] && forall t | 0 <= t < |s.calls| :: s.calls[t].phase.Proposed? || s.calls[t].phase.Rejected?)
    && (s.last.Some? ==>
          && s.last.value < |s.calls| && s.adapter == s.calls[s.last.value].proposal
          && (s.calls[s.last.value].phase.Accepted? || s.calls[s.last.value].phase.Committed?))
  }

  lemma LogGrows(book: Book, log: seq<Edit>, edit: Edit, call: Handler)
    requires CallGood(book, log, call)
    ensures CallGood(book, log + [edit], call)
    ensures Applied(book, log + [edit]) == Apply(Applied(book, log), edit)
  {
    assert (log + [edit])[..call.seen] == log[..call.seen];
    assert (log + [edit])[..|log|] == log;
  }

  lemma CommitKeepsGood(book: Book, s: Lists, t: nat)
    requires Good(book, s) && t < |s.calls| && s.calls[t].phase.Accepted?
    ensures Good(book, Step(s, Commit(t)))
  {
    var u := Step(s, Commit(t));
    forall i | 0 <= i < |s.calls| ensures CallGood(book, u.log, u.calls[i]) {
      assert CallGood(book, s.log, s.calls[i]);
      CommitKeepsCall(book, s, t, i);
    }
    LogGrows(book, s.log, s.calls[t].edit, s.calls[t]);
  }

  lemma CommitKeepsCall(book: Book, s: Lists, t: nat, i: nat)
    requires t < |s.calls| && s.calls[t].phase.Accepted? && i < |s.calls| && CallGood(book, s.log, s.calls[i])
    ensures var u := Step(s, Commit(t)); CallGood(book, u.log, u.calls[i])
  {
    LogGrows(book, s.log, s.calls[t].edit, s.calls[i]);
  }

  lemma StepKeepsGood(book: Book, s: Lists, op: Op)
    requires Good(book, s)
    ensures Good(book, Step(s, op))
  {
    match op
    case Read(edit) => assert s.log[..|s.log|] == s.log;
    case Send(t, ok) =>
    case Commit(t) => if t < |s.calls| && s.calls[t].phase.Accepted? { CommitKeepsGood(book, s, t); }
  }

  lemma {:induction false} RunKeepsGood(book: Book, ops: seq<Op>)
    ensures Good(book, Run(book, ops))
  {
    if ops != [] {
      RunKeepsGood(book, ops[..|ops| - 1]);
      StepKeepsGood(book, Run(book, ops[..|ops| - 1]), ops[|ops| - 1]);
    }
  }

  // ----- when the lists agree

  /** Whatever the adapter took over has been committed. */
  predicate Settled(s: Lists) {
    forall t | 0 <= t < |s.calls| :: !s.calls[t].phase.Accepted?
  }

  /** Nobody but the call whose list the adapter holds has committed since that call read. */
  predicate LastReadWasFresh(s: Lists) {
    s.last.Some? && s.last.value < |s.calls| ==> |s.log| == s.calls[s.last.value].seen + 1
  }

  predicate OnlyAdds(log: seq<Edit>) {
    forall i | 0 <= i < |log| :: log[i].Add?
  }

  lemma {:induction false} AddsCount(book: Book, log: seq<Edit>)
    requires OnlyAdds(log)
    ensures |Applied(book, log).list| == |book.list| + |log|
  {
    if log != [] { AddsCount(book, log[..|log| - 1]); }
  }

  lemma FreshReadMirrors(book: Book, s: Lists)
    requires Good(book, s) && Settled(s) && LastReadWasFresh(s)
    ensures s.book.list == s.adapter
  {
    if s.last.Some? {
      var call := s.calls[s.last.value];
      assert CallGood(book, s.log, call);
      assert s.log[..|s.log| - 1] == s.log[..call.seen];
    }
  }

  lemma StaleReadDiffers(book: Book, s: Lists)
    requires Good(book, s) && Settled(s) && !LastReadWasFresh(s) && OnlyAdds(s.log)
    ensures s.book.list != s.adapter
  {
    var call := s.calls[s.last.value];
    assert CallGood(book, s.log, call);
    AddsCount(book, s.log);
    AddsCount(book, s.log[..call.seen]);
  }

  /**
   * For any number of calls that overlap in any way: once what was accepted is committed, tracked
   * and adapter lists agree if nobody else committed since the call that was accepted last read the
   * tracked list. If only breakpoints were added, they agree in no other case.
   */
  lemma OverlapMirrorsIff(book: Book, ops: seq<Op>)
    requires Settled(Run(book, ops))
    ensures var s := Run(book, ops);
            && (LastReadWasFresh(s) ==> s.book.list == s.adapter)
            && (OnlyAdds(s.log) ==> (s.book.list == s.adapter <==> LastReadWasFresh(s)))
  {
    RunKeepsGood(book, ops);
    var s := Run(book, ops);
    if LastReadWasFresh(s) {
      FreshReadMirrors(book, s);
    } else if OnlyAdds(s.log) {
      StaleReadDiffers(book, s);
    }
  }

  /** A call that overlaps no other, from its read to its commit. */
  function Alone(s: Lists, edit: Edit): Lists {
    Step(Step(Step(s, Read(edit)), Send(|s.calls|, true)), Commit(|s.calls|))
  }

  /** So whatever was lost before, the next accepted call that nobody overlaps brings the lists together. */
  lemma NextCallHeals(book: Book, ops: seq<Op>, edit: Edit)
    requires Settled(Run(book, ops)) && (edit.Drop? ==> edit.id in Run(book, ops).book.lines)
    ensures var u := Alone(Run(book, ops), edit);
            Settled(u) && u.book.list == u.adapter == Apply(Run(book, ops).book, edit).list
  {
  }

  /** Two calls that both read before either commits: both breakpoints are tracked, one is set. */
  lemma OverlapLosesOne(book: Book, a: Edit, b: Edit)
    requires a.Add? && b.Add?
    ensures var s := Run(book, [Read(a), Read(b)] + [Send(0, true), Send(1, true)] + [Commit(0), Commit(1)]);
            Settled(s) && s.book.list == book.list + [a.bp] + [b.bp] && s.adapter == book.list + [b.bp]
  {
    var x, y, z := [Read(a), Read(b)], [Send(0, true), Send(1, true)], [Commit(0), Commit(1)];
    RunTwo(book, [], x[0], x[1]);
    assert [] + x == x && x + y + [z[0], z[1]] == x + y + z;
    BothRead(book, a, b);
    RunTwo(book, x, y[0], y[1]);
    BothSent(book, a, b);
    RunTwo(book, x + y, z[0], z[1]);
    BothCommit(book, a, b);
  }

  function Two(book: Book, a: Edit, b: Edit, phase: Phase): seq<Handler> {
    [Handler(a, Apply(book, a).list, 0, phase), Handler(b, Apply(book, b).list, 0, phase)]
  }

  lemma BothRead(book: Book, a: Edit, b: Edit)
    requires a.Add? && b.Add?
    ensures Step(Step(Start(book), Read(a)), Read(b)) == Lists(book, book.list, Two(book, a, b, Proposed), [], None)
  {
  }

  lemma BothSent(book: Book, a: Edit, b: Edit)
    ensures Step(Step(Lists(book, book.list, Two(book, a, b, Proposed), [], None), Send(0, true)), Send(1, true))
         == Lists(book, Apply(book, b).list, Two(book, a, b, Accepted), [], Some(1))
  {
    var s := Step(Lists(book, book.list, Two(book, a, b, Proposed), [], None), Send(0, true));
    assert s.calls[1] == Two(book, a, b, Proposed)[1];
  }

  lemma BothCommit(book: Book, a: Edit, b: Edit)
    requires a.Add? && b.Add?
    ensures var s := Step(Step(Lists(book, Apply(book, b).list, Two(book, a, b, Accepted), [], Some(1)), Commit(0)), Commit(1));
            Settled(s) && s.book.list == book.list + [a.bp] + [b.bp] && s.adapter == book.list + [b.bp]
  {
  }

  lemma RunTwo(book: Book, ops: seq<Op>, a: Op, b: Op)
    ensures Run(book, ops + [a, b]) == Step(Step(Run(book, ops), a), b)
  {
    assert (ops + [a, b])[..|ops| + 1] == ops + [a];
    assert (ops + [a])[..|ops|] == ops;
    assert Run(book, ops + [a]) == Step(Run(book, ops), a);
  }

  // ----- the book is the session's

  /** What the session knows of one file. */
  ghost predicate Keeps(inner: Inner, file: string, book: Book) {
    && ListOf(inner.sourceBps, file) == book.list
    && (forall id :: id in book.lines <==> id in inner.responses && inner.responses[id].SourceInfo? && inner.responses[id].file == file)
    && (forall id | id in book.lines :: book.lines[id] == inner.responses[id].line)
  }

  /** Both commits of a set keep the book, and so does the removal of an id of that file. */
  lemma SessionKeepsBook(inner: Inner, file: string, book: Book, edit: Edit, condition: string, verified: bool)
    requires Keeps(inner, file, book) && (edit.Drop? ==> edit.id in book.lines)
    ensures match edit
            case Add(bp, id, line) =>
              Keeps(inner.(sourceBps := inner.sourceBps[file := ListOf(inner.sourceBps, file) + [bp]],
                           responses := inner.responses[id := SourceInfo(id, file, line, condition, verified)]),
                    file, Apply(book, edit))
            case Drop(id) => Keeps(inner.Removed(id, inner.responses[id]), file, Apply(book, edit))
  {
  }
}
