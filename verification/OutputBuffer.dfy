/** The session's output buffer (`mcp-session/src/output_buffer.rs`). */
module OutputBuffers {

  const MAX_SIZE: nat := 1_048_576

  /** Category and text as UTF-8: one `char` stands for one byte, so lengths are byte counts. */
  datatype Entry = Entry(category: string, text: string) {
    function Size(): nat {
      |category| + |text|
    }
  }

  const MARKER := Entry("console", "[output truncated]")

  function Total(entries: seq<Entry>): nat {
    if entries == [] then 0 else entries[0].Size() + Total(entries[1..])
  }

  /** Everything in the entries, one after the other. */
  function Joined(entries: seq<Entry>): string {
    if entries == [] then "" else entries[0].category + entries[0].text + Joined(entries[1..])
  }

  /** What the cap counts: the bytes of all categories and texts. */
  lemma {:induction false} TotalIsLength(entries: seq<Entry>)
    ensures Total(entries) == |Joined(entries)|
  {
    if entries != [] { TotalIsLength(entries[1..]); }
  }

  lemma {:induction false} TotalAppend(entries: seq<Entry>, e: Entry)
    ensures Total(entries + [e]) == Total(entries) + e.Size()
  {
    if entries == [] {
      assert [e][1..] == [];
    } else {
      assert (entries + [e])[1..] == entries[1..] + [e];
      TotalAppend(entries[1..], e);
    }
  }

  /** A shorter suffix is never larger. */
  lemma {:induction false} TotalSuffix(entries: seq<Entry>, i: nat, j: nat)
    requires i <= j <= |entries|
    ensures Total(entries[j..]) <= Total(entries[i..])
    decreases j - i
  {
    if i < j {
      assert entries[i..][1..] == entries[i + 1..];
      TotalSuffix(entries, i + 1, j);
    }
  }

  /** `kept` is the longest suffix of `history` whose total fits. */
  ghost predicate LongestFit(kept: seq<Entry>, history: seq<Entry>) {
    && |kept| <= |history| && kept == history[|history| - |kept|..]
    && Total(kept) <= MAX_SIZE
    && (|kept| < |history| ==> Total(history[|history| - |kept| - 1..]) > MAX_SIZE)
  }

  lemma {:induction false} NotLonger(a: seq<Entry>, b: seq<Entry>, history: seq<Entry>)
    requires LongestFit(a, history) && LongestFit(b, history)
    ensures |b| <= |a|
  {
    if |a| < |b| {
      TotalSuffix(history, |history| - |b|, |history| - |a| - 1);
    }
  }

  lemma {:induction false} LongestFitUnique(a: seq<Entry>, b: seq<Entry>, history: seq<Entry>)
    requires LongestFit(a, history) && LongestFit(b, history)
    ensures a == b
  {
    NotLonger(a, b, history);
    NotLonger(b, a, history);
  }

  /** The loop state of `append`: all but the first n, with exact size, and no longer suffix fits. */
  ghost predicate Evicting(kept: seq<Entry>, history: seq<Entry>, n: nat, size: int) {
    && n <= |history| && kept == history[n..]
    && size == Total(history[n..])
    && (n > 0 ==> Total(history[n - 1..]) > MAX_SIZE)
  }

  lemma {:induction false} PushEvicts(kept: seq<Entry>, history: seq<Entry>, e: Entry)
    requires LongestFit(kept, history)
    ensures Evicting(kept + [e], history + [e], |history| - |kept|, Total(kept) + e.Size())
  {
    TotalAppend(kept, e);
    var n := |history| - |kept|;
    SuffixPush(history, e, n);
    if n > 0 {
      SuffixPush(history, e, n - 1);
      TotalAppend(history[n - 1..], e);
    }
  }

  lemma SuffixPush(history: seq<Entry>, e: Entry, i: nat)
    requires i <= |history|
    ensures (history + [e])[i..] == history[i..] + [e]
  {
  }

  lemma EvictionOver(kept: seq<Entry>, history: seq<Entry>, n: nat, size: int)
    requires Evicting(kept, history, n, size) && (size <= MAX_SIZE || kept == [])
    ensures LongestFit(kept, history) && size == Total(kept) == |Joined(kept)| <= MAX_SIZE
    ensures kept != history <==> n > 0
  {
    TotalIsLength(kept);
    if n > 0 { assert |kept| < |history|; }
  }

  lemma {:induction false} PopEvicts(kept: seq<Entry>, history: seq<Entry>, n: nat, size: int)
    requires Evicting(kept, history, n, size) && size > MAX_SIZE && kept != []
    ensures Evicting(kept[1..], history, n + 1, size - kept[0].Size()) && size >= kept[0].Size()
  {
    assert kept[1..] == history[n + 1..];
  }

  /** A drained list: the longest fit of what was appended, behind a marker iff that is not all of it. */
  ghost predicate Drains(drained: seq<Entry>, segment: seq<Entry>) {
    exists kept :: LongestFit(kept, segment) && drained == (if kept != segment then [MARKER] else []) + kept
  }

  /**
   * `history` is what was appended since the last drain. The buffer is the longest suffix
   * of it that fits, `size` its exact total, and the flag says that something was dropped.
   */
  class OutputBuffer {
    var entries: seq<Entry>
    var size: nat
    var truncated: bool
    ghost var history: seq<Entry>

    ghost predicate Valid()
      reads this
    {
      && LongestFit(entries, history)
      && size == Total(entries)
      && (truncated <==> entries != history)
    }

    constructor ()
      ensures Valid() && history == [] && entries == []
    {
      entries, size, truncated, history := [], 0, false, [];
    }

    method Append(e: Entry)
      requires Valid()
      modifies this
      ensures Valid() && history == old(history) + [e]
      ensures size == |Joined(entries)| <= MAX_SIZE
    {
      PushEvicts(entries, history, e);
      ghost var n: nat := |history| - |entries|;
      history := history + [e];
      entries := entries + [e];
      size := size + e.Size();
      while size > MAX_SIZE && entries != []
        invariant history == old(history) + [e]
        invariant Evicting(entries, history, n, size) && (truncated <==> n > 0)
      {
        EvictFirst(n);
        n := n + 1;
      }
      EvictionOver(entries, history, n, size);
    }

    /** One round of the loop of `append`. */
    method EvictFirst(ghost n: nat)
      requires Evicting(entries, history, n, size) && size > MAX_SIZE && entries != []
      modifies this
      ensures Evicting(entries, history, n + 1, size) && truncated
      ensures history == old(history) && |entries| < |old(entries)|
    {
      PopEvicts(entries, history, n, size);
      size := size - entries[0].Size();
      entries := entries[1..];
      truncated := true;
    }

    /** `drain`: the marker first, exactly when something was dropped, then what is left. */
    method Drain() returns (drained: seq<Entry>)
      requires Valid()
      modifies this
      ensures Valid() && history == [] && entries == []
      ensures Drains(drained, old(history))
    {
      ghost var kept := entries;
      if entries == [] && !truncated {
        drained := [];
      } else {
        drained := [];
        if truncated {
          drained := drained + [MARKER];
          truncated := false;
        }
        drained := drained + entries;
        entries := [];
        size := 0;
      }
      history := [];
      assert drained == (if kept != old(history) then [MARKER] else []) + kept;
    }
  }

  // ----- sequences of appends and drains

  datatype Op = Append(e: Entry) | Drain

  /** Appends since the last drain, and one drained list per drain, oldest first. */
  datatype Journal = Journal(open: seq<Entry>, segments: seq<seq<Entry>>)

  function Record(ops: seq<Op>): Journal {
    if ops == [] then Journal([], [])
    else
      var j := Record(ops[..|ops| - 1]);
      match ops[|ops| - 1]
      case Append(e) => Journal(j.open + [e], j.segments)
      case Drain => Journal([], j.segments + [j.open])
  }

  function Appended(ops: seq<Op>): seq<Entry> {
    if ops == [] then []
    else Appended(ops[..|ops| - 1]) + (if ops[|ops| - 1].Append? then [ops[|ops| - 1].e] else [])
  }

  function Flatten(segments: seq<seq<Entry>>): seq<Entry> {
    if segments == [] then [] else Flatten(segments[..|segments| - 1]) + segments[|segments| - 1]
  }

  lemma {:induction false} SegmentsPartition(ops: seq<Op>)
    ensures Flatten(Record(ops).segments) + Record(ops).open == Appended(ops)
  {
    if ops != [] {
      SegmentsPartition(ops[..|ops| - 1]);
      var j := Record(ops[..|ops| - 1]);
      assert (j.segments + [j.open])[..|j.segments|] == j.segments;
    }
  }

  lemma {:induction false} FlattenSame(a: seq<seq<Entry>>, b: seq<seq<Entry>>)
    requires |a| == |b| && forall i | 0 <= i < |a| :: a[i] == b[i]
    ensures Flatten(a) == Flatten(b)
  {
    assert a == b;
  }

  /**
   * Across any history of appends and drains in which no segment outgrew the cap, the
   * drained lists joined together, plus what is still buffered, are exactly the appends.
   */
  lemma {:induction false} NothingLostWithinCap(ops: seq<Op>, drained: seq<seq<Entry>>)
    requires |drained| == |Record(ops).segments|
    requires forall i | 0 <= i < |drained| ::
               Drains(drained[i], Record(ops).segments[i]) && Total(Record(ops).segments[i]) <= MAX_SIZE
    ensures Flatten(drained) + Record(ops).open == Appended(ops)
  {
    var segments := Record(ops).segments;
    forall i | 0 <= i < |drained| ensures drained[i] == segments[i] {
      var kept :| LongestFit(kept, segments[i]) && drained[i] == (if kept != segments[i] then [MARKER] else []) + kept;
      assert segments[i][0..] == segments[i];
      LongestFitUnique(kept, segments[i], segments[i]);
    }
    FlattenSame(drained, segments);
    SegmentsPartition(ops);
  }

  /** A drained list without the marker in front comes from a segment that fits; else the marker leads. */
  lemma {:induction false} MarkerLeadsIfCut(drained: seq<Entry>, segment: seq<Entry>)
    requires Drains(drained, segment)
    ensures Total(segment) <= MAX_SIZE ==> drained == segment
    ensures Total(segment) > MAX_SIZE ==>
              drained != [] && drained[0] == MARKER && LongestFit(drained[1..], segment) && drained[1..] != segment
  {
    var kept :| LongestFit(kept, segment) && drained == (if kept != segment then [MARKER] else []) + kept;
    assert segment[0..] == segment;
    if Total(segment) <= MAX_SIZE {
      LongestFitUnique(kept, segment, segment);
    } else {
      assert drained[1..] == kept;
    }
  }

  /** The segment was cut, and what was cut off is one entry that looks like the marker itself. */
  predicate LostOnlyMarker(segment: seq<Entry>) {
    segment != [] && segment[0] == MARKER && Total(segment[1..]) <= MAX_SIZE
  }

  /**
   * A drained list equals its segment iff the segment fits, or all that was dropped of it is a
   * first entry that the program printed exactly as the marker reads.
   */
  lemma {:induction false} DrainExactIff(drained: seq<Entry>, segment: seq<Entry>)
    requires Drains(drained, segment)
    ensures drained == segment <==> Total(segment) <= MAX_SIZE || LostOnlyMarker(segment)
  {
    MarkerLeadsIfCut(drained, segment);
    if Total(segment) > MAX_SIZE {
      assert segment != [];
      if LostOnlyMarker(segment) {
        assert segment[|segment| - |segment[1..]| - 1..] == segment;
        assert LongestFit(segment[1..], segment);
        LongestFitUnique(drained[1..], segment[1..], segment);
        assert drained == [MARKER] + drained[1..] && segment == [MARKER] + segment[1..];
      }
    }
  }

  /** The first entry of a drained list is not the marker: nothing of its segment was lost. */
  predicate Unmarked(drained: seq<Entry>) {
    drained == [] || drained[0] != MARKER
  }

  /**
   * What a caller can see: if no drained list begins with the marker, the drained lists joined
   * together, plus what is still buffered, are exactly the appends.
   */
  lemma {:induction false} NoMarkerNothingLost(ops: seq<Op>, drained: seq<seq<Entry>>)
    requires |drained| == |Record(ops).segments|
    requires forall i | 0 <= i < |drained| :: Drains(drained[i], Record(ops).segments[i]) && Unmarked(drained[i])
    ensures Flatten(drained) + Record(ops).open == Appended(ops)
  {
    forall i | 0 <= i < |drained| ensures Total(Record(ops).segments[i]) <= MAX_SIZE {
      MarkerLeadsIfCut(drained[i], Record(ops).segments[i]);
    }
    NothingLostWithinCap(ops, drained);
  }

  lemma SecondFillsBuffer(a: Entry, e: Entry)
    requires a.Size() > 0 && e.Size() == MAX_SIZE
    ensures Total([a, e]) > MAX_SIZE && LongestFit([e], [a, e])
  {
    TotalOne(e);
    assert [a, e][1..] == [e];
    SecondFits([e], [a, e]);
  }

  lemma TotalOne(e: Entry)
    ensures Total([e]) == e.Size()
  {
    assert [e][1..] == [];
  }

  lemma SecondFits(kept: seq<Entry>, history: seq<Entry>)
    requires |history| == 2 && kept == history[1..] && Total(kept) <= MAX_SIZE < Total(history)
    ensures LongestFit(kept, history)
  {
    assert history[0..] == history;
  }

  /** The marker is no proof of a loss: a program may print it, and then a full buffer drains exactly. */
  lemma MarkerMayBeOutput(e: Entry)
    requires e.Size() == MAX_SIZE
    ensures Total([MARKER, e]) > MAX_SIZE && Drains([MARKER, e], [MARKER, e])
  {
    assert MARKER.Size() > 0;
    SecondFillsBuffer(MARKER, e);
    assert [MARKER, e] == [MARKER] + [e];
  }
}
