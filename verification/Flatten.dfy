/** Bounded flattening of a variable graph (`mcp-tools/src/flatten.rs`). */
module Flattening {

  datatype Variable = Variable(name: string, value: string, ty: string, reference: int, named: int, indexed: int)

  datatype Flat = Flat(name: string, value: string, ty: string, hasChildren: bool, childrenCount: int)

  datatype Fetched = Vars(vars: seq<Variable>) | FetchError(error: string)

  /** What the adapter answers for a reference. Nothing keeps references from forming cycles. */
  type Graph = int -> Fetched

  // ----- the uncapped reference: a depth-limited preorder walk

  /** One node of the walk, or a fetch that failed at this point of it. */
  datatype Item = Emit(flat: Flat) | Bad(error: string)

  function Shown(v: Variable, name: string, depth: int): Flat {
    if v.reference > 0 && depth <= 0 then Flat(name, v.value, v.ty, true, v.named + v.indexed)
    else Flat(name, v.value, v.ty, false, 0)
  }

  predicate Expands(v: Variable, depth: int) {
    v.reference > 0 && depth > 0
  }

  function Pos(depth: int): nat {
    if depth > 0 then depth else 0
  }

  function Walk(g: Graph, vars: seq<Variable>, prefix: string, depth: int): seq<Item>
    decreases Pos(depth), |vars|, 1
  {
    if vars == [] then [] else Subtree(g, vars[0], prefix + vars[0].name, depth) + Walk(g, vars[1..], prefix, depth)
  }

  function Subtree(g: Graph, v: Variable, name: string, depth: int): seq<Item>
    decreases Pos(depth), 0, 1
  {
    [Emit(Shown(v, name, depth))] + if Expands(v, depth) then Children(g, v.reference, name, depth - 1) else []
  }

  function Children(g: Graph, reference: int, name: string, depth: int): seq<Item>
    decreases Pos(depth) + 1, 0, 0
  {
    match g(reference)
    case FetchError(error) => [Bad(error)]
    case Vars(vars) => Walk(g, vars, name + ".", depth)
  }

  // ----- the cap

  datatype Status = More | Capped | Failed(error: string)

  datatype Progress = Progress(nodes: seq<Flat>, status: Status)

  /** Push the items one by one, stopping at the cap or at a failed fetch. */
  function Drive(nodes: seq<Flat>, items: seq<Item>, maxCount: nat): Progress
    decreases |items|
  {
    if items == [] then Progress(nodes, More)
    else match items[0]
      case Bad(error) => Progress(nodes, Failed(error))
      case Emit(flat) =>
        if |nodes| + 1 >= maxCount then Progress(nodes + [flat], Capped)
        else Drive(nodes + [flat], items[1..], maxCount)
  }

  lemma {:induction false} DriveSplits(nodes: seq<Flat>, a: seq<Item>, b: seq<Item>, maxCount: nat)
    ensures Drive(nodes, a + b, maxCount) ==
            var p := Drive(nodes, a, maxCount);
            if p.status.More? then Drive(p.nodes, b, maxCount) else p
    decreases |a|
  {
    if a == [] {
      assert a + b == b;
    } else {
      assert (a + b)[0] == a[0] && (a + b)[1..] == a[1..] + b;
      if a[0].Emit? && |nodes| + 1 < maxCount {
        DriveSplits(nodes + [a[0].flat], a[1..], b, maxCount);
      }
    }
  }

  lemma {:induction false} DriveGrows(nodes: seq<Flat>, items: seq<Item>, maxCount: nat)
    requires |nodes| < maxCount
    ensures var p := Drive(nodes, items, maxCount);
            && |nodes| <= |p.nodes| <= maxCount && (p.status.Capped? <==> |p.nodes| == maxCount)
    decreases |items|
  {
    if items != [] && items[0].Emit? && |nodes| + 1 < maxCount {
      DriveGrows(nodes + [items[0].flat], items[1..], maxCount);
    }
  }

  // ----- the code

  /** A cap of 0 is checked only after a push, so it acts as a cap of 1. */
  function Cap(maxCount: nat): nat {
    if maxCount == 0 then 1 else maxCount
  }

  /**
   * The body both loops share: push one variable, then descend into it. The ghost results
   * count the fetches made below and the frames nested below.
   */
  method EmitVariable(g: Graph, v: Variable, name: string, depth: int, before: seq<Flat>, maxCount: nat)
    returns (result: seq<Flat>, status: Status, ghost fetches: nat, ghost nested: nat)
    requires |before| < Cap(maxCount)
    ensures Progress(result, status) == Drive(before, Subtree(g, v, name, depth), Cap(maxCount))
    ensures |before| <= |result| <= Cap(maxCount) && (status.Capped? <==> |result| == Cap(maxCount))
    ensures fetches <= |result| - |before| - (if status.Capped? then 1 else 0)
    ensures nested <= Pos(depth) && nested <= Cap(maxCount) - |before| - 1
    decreases Pos(depth), 0
  {
    fetches, nested, status := 0, 0, More;
    assert Subtree(g, v, name, depth)[1..] == if Expands(v, depth) then Children(g, v.reference, name, depth - 1) else [];
    if v.reference > 0 {
      if depth > 0 {
        result := before + [Flat(name, v.value, v.ty, false, 0)];
        if |result| >= maxCount {
          status := Capped;
          return;
        }
        result, status, fetches, nested := FlattenRecursive(g, v.reference, name, depth - 1, result, maxCount);
      } else {
        result := before + [Flat(name, v.value, v.ty, true, v.named + v.indexed)];
        status := if |result| >= maxCount then Capped else More;
      }
    } else {
      result := before + [Flat(name, v.value, v.ty, false, 0)];
      status := if |result| >= maxCount then Capped else More;
    }
  }

  /** `flatten_recursive`. */
  method FlattenRecursive(g: Graph, reference: int, prefix: string, depth: int, before: seq<Flat>, maxCount: nat)
    returns (result: seq<Flat>, status: Status, ghost fetches: nat, ghost nested: nat)
    requires |before| < maxCount
    ensures Progress(result, status) == Drive(before, Children(g, reference, prefix, depth), maxCount)
    ensures |before| <= |result| <= maxCount && (status.Capped? <==> |result| == maxCount)
    ensures fetches <= |result| - |before| + (if status.Capped? then 0 else 1)
    ensures nested <= Pos(depth) + 1 && nested <= maxCount - |before|
    decreases Pos(depth), 1
  {
    result, fetches, nested := before, 1, 1;
    match g(reference) {
      case FetchError(error) =>
        status := Failed(error);
      case Vars(vars) =>
        status := More;
        ghost var goal := Drive(before, Walk(g, vars, prefix + ".", depth), maxCount);
        for i := 0 to |vars|
          invariant |before| <= |result| < maxCount && status.More?
          invariant Drive(result, Walk(g, vars[i..], prefix + ".", depth), maxCount) == goal
          invariant fetches <= |result| - |before| + 1
          invariant nested <= Pos(depth) + 1 && nested <= maxCount - |before|
        {
          var v := vars[i];
          var childName := prefix + "." + v.name;
          assert vars[i..][1..] == vars[i + 1..];
          DriveSplits(result, Subtree(g, v, childName, depth), Walk(g, vars[i + 1..], prefix + ".", depth), maxCount);
          ghost var f, n;
          result, status, f, n := EmitVariable(g, v, childName, depth, result, maxCount);
          fetches := fetches + f;
          nested := if n + 1 > nested then n + 1 else nested;
          if !status.More? {
            return;
          }
        }
        assert vars[|vars|..] == [];
    }
  }

  predicate OccursAt(s: string, t: string, i: nat) {
    i + |t| <= |s| && s[i..i + |t|] == t
  }

  predicate Contains(s: string, t: string) {
    exists i | 0 <= i <= |s| :: OccursAt(s, t, i)
  }

  /** The top-level filter; `lower` is `str::to_lowercase`. */
  predicate Matches(name: string, filter: string, lower: string -> string) {
    filter == "" || Contains(lower(name), lower(filter))
  }

  function Filtered(vars: seq<Variable>, filter: string, lower: string -> string): seq<Variable> {
    if vars == [] then []
    else (if Matches(vars[0].name, filter, lower) then [vars[0]] else []) + Filtered(vars[1..], filter, lower)
  }

  datatype Flattened = Ok(nodes: seq<Flat>, truncated: bool) | Err(error: string)

  /** The result the caller sees for a finished drive. */
  function Outcome(p: Progress): Flattened {
    match p.status
    case Failed(error) => Err(error)
    case _ => Ok(p.nodes, p.status.Capped?)
  }

  /** What is still to come at the top level, from variable `i` on. */
  function RootWalk(g: Graph, vars: seq<Variable>, i: nat, depth: int, filter: string, lower: string -> string): seq<Item>
    requires i <= |vars|
  {
    Walk(g, Filtered(vars[i..], filter, lower), "", depth)
  }

  lemma RootStep(g: Graph, vars: seq<Variable>, i: nat, depth: int, filter: string, lower: string -> string)
    requires i < |vars|
    ensures RootWalk(g, vars, i, depth, filter, lower) ==
            if Matches(vars[i].name, filter, lower)
            then Subtree(g, vars[i], vars[i].name, depth) + RootWalk(g, vars, i + 1, depth, filter, lower)
            else RootWalk(g, vars, i + 1, depth, filter, lower)
  {
    assert vars[i..][1..] == vars[i + 1..];
    var later := Filtered(vars[i + 1..], filter, lower);
    assert ([vars[i]] + later)[1..] == later && "" + vars[i].name == vars[i].name;
    assert [] + later == later;
  }

  /** `flatten_variables`, for any graph, depth, cap and filter, failing fetches included. */
  method FlattenVariables(g: Graph, reference: int, depth: int, maxCount: nat, filter: string, lower: string -> string)
    returns (r: Flattened, ghost fetches: nat, ghost nested: nat)
    ensures g(reference).FetchError? ==> r == Err(g(reference).error)
    ensures g(reference).Vars? ==>
              r == Outcome(Drive([], Walk(g, Filtered(g(reference).vars, filter, lower), "", depth), Cap(maxCount)))
    ensures g(reference).Vars? ==> Flattens(g, g(reference).vars, depth, filter, lower, Cap(maxCount), r)
    ensures fetches <= Cap(maxCount)
    ensures nested <= Pos(depth) && nested <= Cap(maxCount) - 1
  {
    fetches, nested := 1, 0;
    if g(reference).FetchError? {
      r := Err(g(reference).error);
      return;
    }
    var vars := g(reference).vars;
    FlattensWalk(g, vars, depth, filter, lower, maxCount);
    var result: seq<Flat> := [];
    var status := More;
    ghost var cap := Cap(maxCount);
    assert vars[0..] == vars;
    ghost var goal := Drive([], RootWalk(g, vars, 0, depth, filter, lower), cap);
    for i := 0 to |vars|
      invariant |result| < cap && status.More?
      invariant Drive(result, RootWalk(g, vars, i, depth, filter, lower), cap) == goal
      invariant fetches <= |result| + 1
      invariant nested <= Pos(depth) && nested <= cap - 1
    {
      var v := vars[i];
      RootStep(g, vars, i, depth, filter, lower);
      if filter != "" && !Contains(lower(v.name), lower(filter)) {
        continue;
      }
      DriveSplits(result, Subtree(g, v, v.name, depth), RootWalk(g, vars, i + 1, depth, filter, lower), cap);
      ghost var f, n;
      result, status, f, n := EmitVariable(g, v, v.name, depth, result, maxCount);
      fetches := fetches + f;
      nested := if n > nested then n else nested;
      if !status.More? {
        r := if status.Failed? then Err(status.error) else Ok(result, true);
        return;
      }
    }
    assert vars[|vars|..] == [];
    r := Ok(result, false);
  }

  // ----- what the cap does to the walk

  function Flats(items: seq<Item>): (r: seq<Flat>)
    requires forall i | 0 <= i < |items| :: items[i].Emit?
    ensures |r| == |items| && forall i | 0 <= i < |items| :: r[i] == items[i].flat
  {
    seq(|items|, i requires 0 <= i < |items| => items[i].flat)
  }

  /** Index of the first failed fetch, or the length. */
  function FirstBad(items: seq<Item>): (j: nat)
    ensures j <= |items|
    ensures forall i | 0 <= i < j :: items[i].Emit?
    ensures j < |items| ==> items[j].Bad?
  {
    if items == [] || items[0].Bad? then 0 else 1 + FirstBad(items[1..])
  }

  lemma FlatsCons(nodes: seq<Flat>, items: seq<Item>, k: nat)
    requires 1 <= k <= |items| && forall i | 0 <= i < k :: items[i].Emit?
    ensures nodes + Flats(items[..k]) == (nodes + [items[0].flat]) + Flats(items[1..][..k - 1])
  {
  }

  /**
   * Driving a walk under a cap gives exactly its first `maxCount` nodes, is cut iff the walk
   * has that many, and fails iff a fetch fails before them.
   */
  lemma {:induction false} DriveIsPrefix(nodes: seq<Flat>, items: seq<Item>, maxCount: nat)
    requires |nodes| < maxCount
    ensures var room, j := maxCount - |nodes|, FirstBad(items);
            Drive(nodes, items, maxCount) ==
            if j >= room then Progress(nodes + Flats(items[..room]), Capped)
            else Progress(nodes + Flats(items[..j]), if j < |items| then Failed(items[j].error) else More)
    decreases |items|
  {
    var room, j := maxCount - |nodes|, FirstBad(items);
    if items != [] && items[0].Emit? {
      var more := nodes + [items[0].flat];
      FlatsCons(nodes, items, if j >= room then room else j);
      if |more| < maxCount {
        DriveIsPrefix(more, items[1..], maxCount);
      }
    }
  }

  /**
   * Capped flattening refines the uncapped walk: when no fetch of the walk fails, the result
   * is the first `maxCount` nodes of the depth-limited preorder of the matching roots, and
   * `truncated` holds iff that preorder has at least `maxCount` nodes.
   */
  lemma {:induction false} CappedIsPrefix(items: seq<Item>, maxCount: nat)
    requires maxCount >= 1 && forall i | 0 <= i < |items| :: items[i].Emit?
    ensures Outcome(Drive([], items, maxCount)) ==
            Ok(if |items| >= maxCount then Flats(items)[..maxCount] else Flats(items), |items| >= maxCount)
  {
    DriveIsPrefix([], items, maxCount);
    assert FirstBad(items) == |items|;
    if |items| >= maxCount {
      assert [] + Flats(items[..maxCount]) == Flats(items)[..maxCount];
    } else {
      assert items[..|items|] == items && [] + Flats(items) == Flats(items);
    }
  }

  /** The cap is kept exactly when it is at least 1 or there is nothing to emit. */
  lemma {:induction false} CapKeptIff(items: seq<Item>, maxCount: nat)
    ensures |Drive([], items, Cap(maxCount)).nodes| <= maxCount <==>
            maxCount >= 1 || items == [] || items[0].Bad?
  {
    DriveGrows([], items, Cap(maxCount));
  }

  // ----- what the walk lists, by paths of the graph

  /** A path of positions below a list of variables: each but the last leads to a reference that can be fetched. */
  predicate IsPath(g: Graph, vars: seq<Variable>, path: seq<nat>)
    decreases |path|
  {
    && path != [] && path[0] < |vars|
    && (|path| > 1 ==>
          && vars[path[0]].reference > 0 && g(vars[path[0]].reference).Vars?
          && IsPath(g, g(vars[path[0]].reference).vars, path[1..]))
  }

  /** The variables on a path. */
  function Along(g: Graph, vars: seq<Variable>, path: seq<nat>): (r: seq<Variable>)
    requires IsPath(g, vars, path)
    ensures |r| == |path|
    decreases |path|
  {
    if |path| == 1 then [vars[path[0]]]
    else [vars[path[0]]] + Along(g, g(vars[path[0]].reference).vars, path[1..])
  }

  /** The names on a path with dots in between. */
  function Dotted(vs: seq<Variable>): string
    requires vs != []
  {
    if |vs| == 1 then vs[0].name else vs[0].name + "." + Dotted(vs[1..])
  }

  /** A fetch that fails: `path` leads to a variable whose reference cannot be fetched; position 0 below stands for it. */
  predicate IsFailure(g: Graph, vars: seq<Variable>, path: seq<nat>)
    decreases |path|
  {
    && |path| > 1 && path[0] < |vars| && vars[path[0]].reference > 0
    && if g(vars[path[0]].reference).FetchError? then path[1..] == [0]
       else IsFailure(g, g(vars[path[0]].reference).vars, path[1..])
  }

  function FailureOf(g: Graph, vars: seq<Variable>, path: seq<nat>): string
    requires IsFailure(g, vars, path)
    decreases |path|
  {
    match g(vars[path[0]].reference)
    case FetchError(error) => error
    case Vars(vs) => FailureOf(g, vs, path[1..])
  }

  /** What the caller is shown for a path: the container mark exactly where the depth is used up. */
  function FlatOf(vs: seq<Variable>, prefix: string, depth: int): Flat
    requires vs != []
  {
    var v := vs[|vs| - 1];
    var cut := v.reference > 0 && |vs| == Pos(depth) + 1;
    Flat(prefix + Dotted(vs), v.value, v.ty, cut, if cut then v.named + v.indexed else 0)
  }

  predicate Reached(g: Graph, vars: seq<Variable>, path: seq<nat>, depth: int) {
    |path| <= Pos(depth) + 1 && (IsPath(g, vars, path) || IsFailure(g, vars, path))
  }

  /** The item is what belongs to the path. */
  ghost predicate Belongs(g: Graph, vars: seq<Variable>, path: seq<nat>, prefix: string, depth: int, item: Item) {
    && (IsPath(g, vars, path) ==> item == Emit(FlatOf(Along(g, vars, path), prefix, depth)))
    && (IsFailure(g, vars, path) ==> item == Bad(FailureOf(g, vars, path)))
  }

  /** Lexicographic order of positions: a parent comes before what is below it. */
  predicate Before(p: seq<nat>, q: seq<nat>) {
    q != [] && (p == [] || p[0] < q[0] || (p[0] == q[0] && Before(p[1..], q[1..])))
  }

  predicate Ascending(paths: seq<seq<nat>>) {
    forall i, j | 0 <= i < j < |paths| :: Before(paths[i], paths[j])
  }

  // ----- the paths of a walk

  function Under(i: nat, paths: seq<seq<nat>>): (r: seq<seq<nat>>)
    ensures |r| == |paths| && forall k | 0 <= k < |r| :: r[k] == [i] + paths[k]
  {
    seq(|paths|, k requires 0 <= k < |paths| => [i] + paths[k])
  }

  function ListPaths(g: Graph, vars: seq<Variable>, i: nat, depth: int, filter: string, lower: string -> string): seq<seq<nat>>
    requires i <= |vars|
    decreases Pos(depth), |vars| - i, 1
  {
    if i == |vars| then []
    else
      (if Matches(vars[i].name, filter, lower) then Under(i, NodePaths(g, vars[i], depth, lower)) else [])
      + ListPaths(g, vars, i + 1, depth, filter, lower)
  }

  /** Below one variable: itself, then what its reference leads to, unfiltered. */
  function NodePaths(g: Graph, v: Variable, depth: int, lower: string -> string): (r: seq<seq<nat>>)
    ensures r != [] && r[0] == []
    decreases Pos(depth), 0, 1
  {
    [[]] + if Expands(v, depth) then ChildPaths(g, v.reference, depth - 1, lower) else []
  }

  function ChildPaths(g: Graph, reference: int, depth: int, lower: string -> string): seq<seq<nat>>
    decreases Pos(depth) + 1, 0, 0
  {
    match g(reference)
    case FetchError(_) => [[0]]
    case Vars(vs) => ListPaths(g, vs, 0, depth, "", lower)
  }

  lemma {:induction false} FilteredAll(vars: seq<Variable>, lower: string -> string)
    ensures Filtered(vars, "", lower) == vars
  {
    if vars != [] {
      FilteredAll(vars[1..], lower);
      assert [vars[0]] + vars[1..] == vars;
    }
  }

  /** The items one by one, with the paths they belong to. */
  ghost predicate Aligned(g: Graph, vars: seq<Variable>, i: nat, paths: seq<seq<nat>>, items: seq<Item>, prefix: string, depth: int) {
    && |paths| == |items|
    && forall k | 0 <= k < |paths| ::
         Reached(g, vars, paths[k], depth) && i <= paths[k][0] && Belongs(g, vars, paths[k], prefix, depth, items[k])
  }

  lemma DottedCons(v: Variable, vs: seq<Variable>)
    requires vs != []
    ensures Dotted([v] + vs) == v.name + "." + Dotted(vs)
  {
    assert ([v] + vs)[1..] == vs;
  }

  /** A path below a variable, seen from the list the variable is in. */
  lemma Lift(g: Graph, vars: seq<Variable>, i: nat, vs: seq<Variable>, q: seq<nat>, prefix: string, depth: int, item: Item)
    requires i < |vars| && Expands(vars[i], depth) && g(vars[i].reference) == Vars(vs)
    requires Reached(g, vs, q, depth - 1) && Belongs(g, vs, q, prefix + vars[i].name + ".", depth - 1, item)
    ensures Reached(g, vars, [i] + q, depth) && Belongs(g, vars, [i] + q, prefix, depth, item)
  {
    var path := [i] + q;
    assert path[1..] == q;
    if IsPath(g, vs, q) {
      var along := Along(g, vs, q);
      assert Along(g, vars, path) == [vars[i]] + along;
      DottedCons(vars[i], along);
      assert prefix + vars[i].name + "." + Dotted(along) == prefix + (vars[i].name + "." + Dotted(along));
    }
  }

  lemma SelfAligned(g: Graph, vars: seq<Variable>, i: nat, prefix: string, depth: int)
    requires i < |vars|
    ensures Reached(g, vars, [i], depth)
    ensures Belongs(g, vars, [i], prefix, depth, Emit(Shown(vars[i], prefix + vars[i].name, depth)))
  {
  }

  lemma {:induction false} NodeAligned(g: Graph, vars: seq<Variable>, i: nat, prefix: string, depth: int, lower: string -> string)
    requires i < |vars|
    ensures Aligned(g, vars, i, Under(i, NodePaths(g, vars[i], depth, lower)), Subtree(g, vars[i], prefix + vars[i].name, depth), prefix, depth)
    decreases Pos(depth), 0, 1
  {
    var v := vars[i];
    var paths, items := Under(i, NodePaths(g, v, depth, lower)), Subtree(g, v, prefix + v.name, depth);
    SelfAligned(g, vars, i, prefix, depth);
    assert paths[0] == [i];
    if Expands(v, depth) {
      BelowAligned(g, vars, i, prefix, depth, lower);
      var below := ChildPaths(g, v.reference, depth - 1, lower);
      assert paths == [[i]] + Under(i, below);
    }
  }

  /** The paths and items below a variable, seen from its list. */
  lemma {:induction false} BelowAligned(g: Graph, vars: seq<Variable>, i: nat, prefix: string, depth: int, lower: string -> string)
    requires i < |vars| && Expands(vars[i], depth)
    ensures Aligned(g, vars, i, Under(i, ChildPaths(g, vars[i].reference, depth - 1, lower)),
                    Children(g, vars[i].reference, prefix + vars[i].name, depth - 1), prefix, depth)
    decreases Pos(depth), 0, 0
  {
    var v := vars[i];
    var below := ChildPaths(g, v.reference, depth - 1, lower);
    var children := Children(g, v.reference, prefix + v.name, depth - 1);
    if g(v.reference).FetchError? {
      assert [i] + [0] == [i, 0] && [i, 0][1..] == [0];
    } else {
      var vs := g(v.reference).vars;
      ListAligned(g, vs, 0, prefix + v.name + ".", depth - 1, "", lower);
      FilteredAll(vs, lower);
      assert vs[0..] == vs;
      forall k | 0 <= k < |below|
        ensures Reached(g, vars, [i] + below[k], depth) && Belongs(g, vars, [i] + below[k], prefix, depth, children[k])
      {
        Lift(g, vars, i, vs, below[k], prefix, depth, children[k]);
      }
    }
  }

  lemma {:induction false} ListAligned(g: Graph, vars: seq<Variable>, i: nat, prefix: string, depth: int, filter: string, lower: string -> string)
    requires i <= |vars|
    ensures Aligned(g, vars, i, ListPaths(g, vars, i, depth, filter, lower), Walk(g, Filtered(vars[i..], filter, lower), prefix, depth), prefix, depth)
    decreases Pos(depth), |vars| - i, 2
  {
    if i < |vars| {
      ListAligned(g, vars, i + 1, prefix, depth, filter, lower);
      FilteredStep(g, vars, i, prefix, depth, filter, lower);
      if Matches(vars[i].name, filter, lower) {
        NodeAligned(g, vars, i, prefix, depth, lower);
        JoinAligned(g, vars, i, Under(i, NodePaths(g, vars[i], depth, lower)), Subtree(g, vars[i], prefix + vars[i].name, depth),
                    ListPaths(g, vars, i + 1, depth, filter, lower), Walk(g, Filtered(vars[i + 1..], filter, lower), prefix, depth), prefix, depth);
      } else {
        var rest := ListPaths(g, vars, i + 1, depth, filter, lower);
        assert [] + rest == rest;
      }
    }
  }

  lemma FilteredStep(g: Graph, vars: seq<Variable>, i: nat, prefix: string, depth: int, filter: string, lower: string -> string)
    requires i < |vars|
    ensures Walk(g, Filtered(vars[i..], filter, lower), prefix, depth) ==
              (if Matches(vars[i].name, filter, lower) then Subtree(g, vars[i], prefix + vars[i].name, depth) else [])
              + Walk(g, Filtered(vars[i + 1..], filter, lower), prefix, depth)
  {
    assert vars[i..][1..] == vars[i + 1..];
    var later := Filtered(vars[i + 1..], filter, lower);
    assert ([vars[i]] + later)[1..] == later && [] + later == later;
  }

  lemma JoinAligned(g: Graph, vars: seq<Variable>, i: nat, p: seq<seq<nat>>, x: seq<Item>, q: seq<seq<nat>>, y: seq<Item>, prefix: string, depth: int)
    requires Aligned(g, vars, i, p, x, prefix, depth) && Aligned(g, vars, i + 1, q, y, prefix, depth)
    ensures Aligned(g, vars, i, p + q, x + y, prefix, depth)
  {
  }

  /** Every path within the depth that starts at a matching variable is listed. */
  lemma {:induction false} ListComplete(g: Graph, vars: seq<Variable>, i: nat, depth: int, filter: string, lower: string -> string, path: seq<nat>)
    requires i <= |vars| && Reached(g, vars, path, depth) && i <= path[0] && Matches(vars[path[0]].name, filter, lower)
    ensures path in ListPaths(g, vars, i, depth, filter, lower)
    decreases |path|, |vars| - i
  {
    if path[0] == i {
      NodeComplete(g, vars, i, depth, lower, path[1..]);
      var under := Under(i, NodePaths(g, vars[i], depth, lower));
      var k :| 0 <= k < |under| && NodePaths(g, vars[i], depth, lower)[k] == path[1..];
      assert path == [i] + path[1..] == under[k];
    } else {
      ListComplete(g, vars, i + 1, depth, filter, lower, path);
    }
  }

  lemma {:induction false} NodeComplete(g: Graph, vars: seq<Variable>, i: nat, depth: int, lower: string -> string, q: seq<nat>)
    requires i < |vars| && Reached(g, vars, [i] + q, depth)
    ensures q in NodePaths(g, vars[i], depth, lower)
    decreases |q| + 1, 0
  {
    var path := [i] + q;
    assert path[1..] == q;
    if q != [] {
      var v := vars[i];
      assert Expands(v, depth);
      if g(v.reference).Vars? {
        var vs := g(v.reference).vars;
        assert Reached(g, vs, q, depth - 1);
        assert Matches(vs[q[0]].name, "", lower);
        ListComplete(g, vs, 0, depth - 1, "", lower, q);
      }
      assert q in ChildPaths(g, v.reference, depth - 1, lower);
    }
  }

  lemma UnderAscending(i: nat, paths: seq<seq<nat>>)
    requires Ascending(paths)
    ensures Ascending(Under(i, paths))
  {
    forall a, b | 0 <= a < b < |paths| ensures Before([i] + paths[a], [i] + paths[b]) {
      assert ([i] + paths[a])[1..] == paths[a] && ([i] + paths[b])[1..] == paths[b];
    }
  }

  lemma {:induction false} NodeAscending(g: Graph, v: Variable, depth: int, lower: string -> string)
    ensures Ascending(NodePaths(g, v, depth, lower))
    decreases Pos(depth), 0, 1
  {
    if Expands(v, depth) && g(v.reference).Vars? {
      var vs := g(v.reference).vars;
      ListAscending(g, vs, 0, depth - 1, "", lower);
      ListAligned(g, vs, 0, "", depth - 1, "", lower);
    }
  }

  lemma {:induction false} ListAscending(g: Graph, vars: seq<Variable>, i: nat, depth: int, filter: string, lower: string -> string)
    requires i <= |vars|
    ensures Ascending(ListPaths(g, vars, i, depth, filter, lower))
    decreases Pos(depth), |vars| - i, 2
  {
    if i < |vars| {
      ListAscending(g, vars, i + 1, depth, filter, lower);
      ListAligned(g, vars, i + 1, "", depth, filter, lower);
      if Matches(vars[i].name, filter, lower) {
        NodeAscending(g, vars[i], depth, lower);
        UnderAscending(i, NodePaths(g, vars[i], depth, lower));
        JoinAscending(i, Under(i, NodePaths(g, vars[i], depth, lower)), ListPaths(g, vars, i + 1, depth, filter, lower));
      } else {
        var rest := ListPaths(g, vars, i + 1, depth, filter, lower);
        assert [] + rest == rest;
      }
    }
  }

  lemma JoinAscending(i: nat, p: seq<seq<nat>>, q: seq<seq<nat>>)
    requires Ascending(p) && Ascending(q)
    requires forall k | 0 <= k < |p| :: p[k] != [] && p[k][0] == i
    requires forall k | 0 <= k < |q| :: q[k] != [] && q[k][0] > i
    ensures Ascending(p + q)
  {
    var r := p + q;
    forall a, b | 0 <= a < b < |r| ensures Before(r[a], r[b]) {
      if a < |p| <= b { assert r[a][0] == i && r[b][0] > i; }
    }
  }

  // ----- the walk, described

  /**
   * The paths are exactly those within the depth that start at a root whose lower-cased name
   * contains the lower-cased filter, each once, in the order of their positions.
   */
  ghost predicate Enumerates(g: Graph, roots: seq<Variable>, depth: int, filter: string, lower: string -> string, paths: seq<seq<nat>>) {
    && Ascending(paths)
    && forall path: seq<nat> ::
         path in paths <==> Reached(g, roots, path, depth) && (filter == "" || Contains(lower(roots[path[0]].name), lower(filter)))
  }

  lemma {:induction false} ListMatches(g: Graph, vars: seq<Variable>, i: nat, depth: int, filter: string, lower: string -> string, path: seq<nat>)
    requires i <= |vars| && path in ListPaths(g, vars, i, depth, filter, lower)
    ensures path != [] && path[0] < |vars| && Matches(vars[path[0]].name, filter, lower)
    decreases |vars| - i
  {
    if i < |vars| {
      if path in ListPaths(g, vars, i + 1, depth, filter, lower) {
        ListMatches(g, vars, i + 1, depth, filter, lower, path);
      }
    }
  }

  /**
   * What the walk lists: for each such path, its names joined by dots, the last variable's value
   * and type, and the container mark with the number of children exactly where the variable has a
   * reference and the depth is used up; and where a fetch fails, its error, in place of the children.
   */
  lemma WalkIsPaths(g: Graph, roots: seq<Variable>, depth: int, filter: string, lower: string -> string) returns (paths: seq<seq<nat>>)
    ensures Enumerates(g, roots, depth, filter, lower, paths)
    ensures var items := Walk(g, Filtered(roots, filter, lower), "", depth);
            |items| == |paths| && forall k | 0 <= k < |items| :: Belongs(g, roots, paths[k], "", depth, items[k])
  {
    paths := ListPaths(g, roots, 0, depth, filter, lower);
    ListAligned(g, roots, 0, "", depth, filter, lower);
    ListAscending(g, roots, 0, depth, filter, lower);
    assert roots[0..] == roots;
    forall path: seq<nat>
      ensures path in paths <==> Reached(g, roots, path, depth) && (filter == "" || Contains(lower(roots[path[0]].name), lower(filter)))
    {
      if path in paths {
        ListMatches(g, roots, 0, depth, filter, lower, path);
      } else if Reached(g, roots, path, depth) && Matches(roots[path[0]].name, filter, lower) {
        ListComplete(g, roots, 0, depth, filter, lower, path);
      }
    }
  }

  /** The answer for a list of paths under a cap: the nodes of the first paths, or the first failure if the cap does not come before it. */
  ghost predicate Answered(g: Graph, roots: seq<Variable>, depth: int, paths: seq<seq<nat>>, cap: nat, r: Flattened) {
    match r
    case Ok(nodes, truncated) =>
      && |nodes| <= |paths| && (if truncated then |nodes| == cap else |nodes| == |paths| < cap)
      && forall k | 0 <= k < |nodes| ::
           IsPath(g, roots, paths[k]) && nodes[k] == FlatOf(Along(g, roots, paths[k]), "", depth)
    case Err(error) =>
      exists j :: 0 <= j < |paths| && j < cap && FailsFirst(g, roots, paths, j) && error == FailureOf(g, roots, paths[j])
  }

  ghost predicate FailsFirst(g: Graph, roots: seq<Variable>, paths: seq<seq<nat>>, j: nat)
    requires j < |paths|
  {
    IsFailure(g, roots, paths[j]) && forall k | 0 <= k < j :: IsPath(g, roots, paths[k])
  }

  /** Flattening, described without the walk. */
  ghost predicate Flattens(g: Graph, roots: seq<Variable>, depth: int, filter: string, lower: string -> string, cap: nat, r: Flattened) {
    exists paths :: Enumerates(g, roots, depth, filter, lower, paths) && Answered(g, roots, depth, paths, cap, r)
  }

  lemma DriveAnswers(g: Graph, roots: seq<Variable>, depth: int, paths: seq<seq<nat>>, items: seq<Item>, cap: nat)
    requires cap >= 1 && |items| == |paths|
    requires forall k | 0 <= k < |items| ::
               Reached(g, roots, paths[k], depth) && Belongs(g, roots, paths[k], "", depth, items[k])
    ensures Answered(g, roots, depth, paths, cap, Outcome(Drive([], items, cap)))
  {
    DriveIsPrefix([], items, cap);
    var j := FirstBad(items);
    forall k | 0 <= k < j ensures IsPath(g, roots, paths[k]) && items[k].flat == FlatOf(Along(g, roots, paths[k]), "", depth) {
      assert items[k].Emit? && Belongs(g, roots, paths[k], "", depth, items[k]);
    }
    if j < cap && j < |items| {
      assert items[j].Bad? && Belongs(g, roots, paths[j], "", depth, items[j]);
      assert FailsFirst(g, roots, paths, j);
    }
  }

  lemma FlattensWalk(g: Graph, roots: seq<Variable>, depth: int, filter: string, lower: string -> string, maxCount: nat)
    ensures Flattens(g, roots, depth, filter, lower, Cap(maxCount),
                     Outcome(Drive([], Walk(g, Filtered(roots, filter, lower), "", depth), Cap(maxCount))))
  {
    var paths := WalkIsPaths(g, roots, depth, filter, lower);
    var items := Walk(g, Filtered(roots, filter, lower), "", depth);
    forall k | 0 <= k < |items| ensures Reached(g, roots, paths[k], depth) {
      assert paths[k] in paths;
    }
    DriveAnswers(g, roots, depth, paths, items, Cap(maxCount));
  }
}
