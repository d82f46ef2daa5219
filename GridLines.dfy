/** The merge step of `Cluster.getGridPolylines`: shared tile edges are grouped
    by their fixed coordinate, sorted by start, and touching or overlapping
    collinear edges are folded into maximal runs. */
module GridLines {
  import opened Tiles

  /** The local `Segment(fixed, start, end)`: the interval [start, end] on the
      line whose other coordinate is `fixed` (a longitude for vertical lines,
      a latitude for horizontal ones), in units of 1e-6 degree. */
  datatype GridSegment = GridSegment(fixed: int, start: int, end: int)

  function Min(a: int, b: int): int { if a <= b then a else b }
  function Max(a: int, b: int): int { if a >= b then a else b }

  ghost predicate WellFormed(segs: seq<GridSegment>)
  {
    forall k :: 0 <= k < |segs| ==> segs[k].start <= segs[k].end
  }

  ghost predicate SortedByStart(segs: seq<GridSegment>)
  {
    forall i, j :: 0 <= i < j < |segs| ==> segs[i].start <= segs[j].start
  }

  /** Consecutive runs are apart: each ends strictly before the next starts. */
  ghost predicate Separated(segs: seq<GridSegment>)
  {
    forall k :: 0 <= k < |segs| - 1 ==> segs[k].end < segs[k + 1].start
  }

  ghost predicate AllFixed(segs: seq<GridSegment>, f: int)
  {
    forall k :: 0 <= k < |segs| ==> segs[k].fixed == f
  }

  /** Position v on the line lies on one of the segments. */
  ghost predicate Covers(segs: seq<GridSegment>, v: real)
  {
    exists k :: 0 <= k < |segs| && segs[k].start as real <= v <= segs[k].end as real
  }

  // ---------------------------------------------------------------------------
  // groupBy { it.fixed }

  /** The segments with fixed coordinate f, in their original order. */
  function Group(segs: seq<GridSegment>, f: int): (r: seq<GridSegment>)
    ensures AllFixed(r, f)
    ensures |r| <= |segs|
  {
    if segs == [] then []
    else (if segs[0].fixed == f then [segs[0]] else []) + Group(segs[1..], f)
  }

  /** Grouping keeps exactly the segments on line f. */
  lemma {:induction false} GroupMembers(segs: seq<GridSegment>, f: int, s: GridSegment)
    ensures s in Group(segs, f) <==> s in segs && s.fixed == f
  {
    if segs != [] {
      GroupMembers(segs[1..], f, s);
      assert segs == [segs[0]] + segs[1..];
    }
  }

  lemma {:induction false} GroupAppend(a: seq<GridSegment>, b: seq<GridSegment>, f: int)
    ensures Group(a + b, f) == Group(a, f) + Group(b, f)
  {
    if a != [] {
      var head := if a[0].fixed == f then [a[0]] else [];
      assert (a + b)[0] == a[0];
      assert (a + b)[1..] == a[1..] + b;
      GroupAppend(a[1..], b, f);
      calc {
        Group(a + b, f);
        head + Group(a[1..] + b, f);
        head + (Group(a[1..], f) + Group(b, f));
        (head + Group(a[1..], f)) + Group(b, f);
      }
    } else {
      assert a + b == b;
    }
  }

  lemma {:induction false} GroupOfAllFixed(segs: seq<GridSegment>, g: int, f: int)
    requires AllFixed(segs, g)
    ensures Group(segs, f) == if f == g then segs else []
  {
    if segs != [] {
      GroupOfAllFixed(segs[1..], g, f);
    }
  }

  /** The distinct fixed coordinates, in order of first occurrence (the key
      order of Kotlin's `groupBy`). */
  function Keys(segs: seq<GridSegment>): (r: seq<int>)
    ensures forall f :: f in r <==> exists s :: s in segs && s.fixed == f
    ensures forall i, j :: 0 <= i < j < |r| ==> r[i] != r[j]
  {
    if segs == [] then []
    else
      var n := |segs| - 1;
      var keys := Keys(segs[..n]);
      assert segs == segs[..n] + [segs[n]];
      if segs[n].fixed in keys then keys else keys + [segs[n].fixed]
  }

  // ---------------------------------------------------------------------------
  // sortedBy { it.start }: a stable sort

  function Insert(s: GridSegment, sorted: seq<GridSegment>): seq<GridSegment>
  {
    if sorted == [] || s.start <= sorted[0].start then [s] + sorted
    else [sorted[0]] + Insert(s, sorted[1..])
  }

  function SortByStart(segs: seq<GridSegment>): seq<GridSegment>
  {
    if segs == [] then [] else Insert(segs[0], SortByStart(segs[1..]))
  }

  lemma SortedCons(a: GridSegment, r: seq<GridSegment>)
    requires SortedByStart(r) && (r != [] ==> a.start <= r[0].start)
    ensures SortedByStart([a] + r)
  {
    var q := [a] + r;
    forall i, j | 0 <= i < j < |q| ensures q[i].start <= q[j].start {
      if i > 0 {
        assert q[i] == r[i - 1] && q[j] == r[j - 1];
      } else if j > 1 {
        assert q[j] == r[j - 1];
        assert r[0].start <= r[j - 1].start;
      }
    }
  }

  lemma {:induction false} InsertSpec(s: GridSegment, sorted: seq<GridSegment>)
    requires SortedByStart(sorted)
    ensures SortedByStart(Insert(s, sorted))
    ensures multiset(Insert(s, sorted)) == multiset{s} + multiset(sorted)
    ensures Insert(s, sorted)[0] == s || (sorted != [] && Insert(s, sorted)[0] == sorted[0])
  {
    if sorted == [] || s.start <= sorted[0].start {
      SortedCons(s, sorted);
    } else {
      var tail := sorted[1..];
      assert SortedByStart(tail);
      InsertSpec(s, tail);
      var r := Insert(s, tail);
      assert sorted == [sorted[0]] + tail;
      assert tail != [] ==> sorted[0].start <= tail[0].start;
      SortedCons(sorted[0], r);
    }
  }

  /** The sort yields the same segments, ordered by start. */
  lemma {:induction false} SortByStartSpec(segs: seq<GridSegment>)
    ensures SortedByStart(SortByStart(segs))
    ensures multiset(SortByStart(segs)) == multiset(segs)
  {
    if segs != [] {
      SortByStartSpec(segs[1..]);
      InsertSpec(segs[0], SortByStart(segs[1..]));
      assert segs == [segs[0]] + segs[1..];
    }
  }

  /** Sorting what is already sorted changes nothing. */
  lemma {:induction false} SortByStartSorted(segs: seq<GridSegment>)
    requires SortedByStart(segs)
    ensures SortByStart(segs) == segs
  {
    if segs != [] {
      SortByStartSorted(segs[1..]);
    }
  }

  // ---------------------------------------------------------------------------
  // The fold

  /** One step of the fold: a segment that starts at or before the end of the
      last run (or within the 1e-6-degree tolerance, one unit here) extends
      that run to the larger end; any other segment starts a new run. */
  function MergeStep(acc: seq<GridSegment>, seg: GridSegment): seq<GridSegment>
  {
    if acc == [] then [seg]
    else
      var last := acc[|acc| - 1];
      if Abs(seg.start - last.end) < 1 || seg.start <= last.end then
        acc[..|acc| - 1] + [last.(end := Max(last.end, seg.end))]
      else
        acc + [seg]
  }

  /** The fold of `MergeStep` over a list, left to right. */
  function MergeAll(segs: seq<GridSegment>): seq<GridSegment>
  {
    if segs == [] then [] else MergeStep(MergeAll(segs[..|segs| - 1]), segs[|segs| - 1])
  }

  /** The imperative fold of `getGridPolylines`: the accumulator's last run has
      its end moved in place. */
  method MergeRuns(sorted: seq<GridSegment>) returns (acc: seq<GridSegment>)
    ensures acc == MergeAll(sorted)
  {
    acc := [];
    for i := 0 to |sorted|
      invariant acc == MergeAll(sorted[..i])
    {
      var seg := sorted[i];
      assert sorted[..i + 1][..i] == sorted[..i];
      if acc == [] {
        acc := [seg];
      } else {
        var last := acc[|acc| - 1];
        if Abs(seg.start - last.end) < 1 || seg.start <= last.end {
          acc := acc[..|acc| - 1] + [last.(end := Max(last.end, seg.end))];
        } else {
          acc := acc + [seg];
        }
      }
    }
    assert sorted[..|sorted|] == sorted;
  }

  /** One fold step keeps the runs well-formed and separated, provided the
      new segment starts no earlier than the last run. */
  lemma MergeStepShape(acc: seq<GridSegment>, x: GridSegment, f: int)
    requires WellFormed(acc) && Separated(acc) && AllFixed(acc, f)
    requires x.start <= x.end && x.fixed == f
    requires acc != [] ==> acc[|acc| - 1].start <= x.start
    ensures var m := MergeStep(acc, x);
      && WellFormed(m) && Separated(m) && AllFixed(m, f)
      && m != [] && m[|m| - 1].start <= x.start
  {
  }

  /** One fold step covers what the runs covered plus the new segment. */
  lemma MergeStepCovers(acc: seq<GridSegment>, x: GridSegment, v: real)
    requires acc != [] ==> acc[|acc| - 1].start <= x.start
    ensures Covers(MergeStep(acc, x), v) <==> Covers(acc, v) || (x.start as real <= v <= x.end as real)
  {
    if acc == [] {
      CoversAppend([], x, v);
    } else {
      var last := acc[|acc| - 1];
      var init := acc[..|acc| - 1];
      if Abs(x.start - last.end) < 1 || x.start <= last.end {
        var last' := last.(end := Max(last.end, x.end));
        CoversAppend(init, last', v);
        CoversAppend(init, last, v);
        assert acc == init + [last];
      } else {
        CoversAppend(acc, x, v);
      }
    }
  }

  /** Folding a sorted, well-formed list yields well-formed, separated runs
      that keep the fixed coordinate and whose last run starts no later than
      the last input. */
  lemma {:induction false} MergeAllShape(segs: seq<GridSegment>, f: int)
    requires WellFormed(segs) && SortedByStart(segs) && AllFixed(segs, f)
    ensures var m := MergeAll(segs);
      && WellFormed(m) && Separated(m) && AllFixed(m, f)
      && (segs == [] <==> m == [])
      && (segs != [] ==> m[|m| - 1].start <= segs[|segs| - 1].start)
  {
    if segs != [] {
      var n := |segs| - 1;
      var pre := segs[..n];
      MergeAllShape(pre, f);
      if n > 0 {
        assert pre[n - 1].start <= segs[n].start;
      }
      MergeStepShape(MergeAll(pre), segs[n], f);
    }
  }

  /** Folding a sorted list covers exactly what the list covers. */
  lemma {:induction false} MergeAllCovers(segs: seq<GridSegment>, f: int, v: real)
    requires WellFormed(segs) && SortedByStart(segs) && AllFixed(segs, f)
    ensures Covers(MergeAll(segs), v) <==> Covers(segs, v)
  {
    if segs != [] {
      var n := |segs| - 1;
      var pre := segs[..n];
      assert segs == pre + [segs[n]];
      MergeAllShape(pre, f);
      if n > 0 {
        assert pre[n - 1].start <= segs[n].start;
      }
      MergeAllCovers(pre, f, v);
      MergeStepCovers(MergeAll(pre), segs[n], v);
      CoversAppend(pre, segs[n], v);
    }
  }

  lemma CoversAppend(segs: seq<GridSegment>, x: GridSegment, v: real)
    ensures Covers(segs + [x], v) <==> Covers(segs, v) || (x.start as real <= v <= x.end as real)
  {
    var all := segs + [x];
    if Covers(all, v) {
      var k :| 0 <= k < |all| && all[k].start as real <= v <= all[k].end as real;
      if k < |segs| {
        assert segs[k] == all[k];
      }
    }
    if Covers(segs, v) {
      var k :| 0 <= k < |segs| && segs[k].start as real <= v <= segs[k].end as real;
      assert all[k] == segs[k];
    }
    if x.start as real <= v <= x.end as real {
      assert all[|segs|] == x;
    }
  }

  /** Grid merge idempotence: folding runs that are already sorted, separated
      and well-formed gives them back unchanged. */
  lemma {:induction false} MergeAllIdempotent(runs: seq<GridSegment>)
    requires WellFormed(runs) && Separated(runs)
    ensures MergeAll(runs) == runs
  {
    if runs != [] {
      var n := |runs| - 1;
      assert runs == runs[..n] + [runs[n]];
      MergeAllIdempotent(runs[..n]);
    }
  }

  lemma SeparatedIsSorted(runs: seq<GridSegment>)
    requires WellFormed(runs) && Separated(runs)
    ensures SortedByStart(runs)
  {
    forall i, j | 0 <= i < j < |runs| ensures runs[i].start < runs[j].start {
      var k := i;
      while k < j
        invariant i <= k <= j && runs[i].start <= runs[k].start
      {
        k := k + 1;
      }
      assert runs[i].start <= runs[i].end < runs[i + 1].start <= runs[j].start by {
        var k' := i + 1;
        while k' < j
          invariant i + 1 <= k' <= j && runs[i + 1].start <= runs[k'].start
        {
          k' := k' + 1;
        }
      }
    }
  }

  /** Merging a group of already merged runs (sort, then fold) returns the
      same runs. */
  lemma MergeOfMergedIsIdentity(runs: seq<GridSegment>)
    requires WellFormed(runs) && Separated(runs)
    ensures MergeAll(SortByStart(runs)) == runs
  {
    SeparatedIsSorted(runs);
    SortByStartSorted(runs);
    MergeAllIdempotent(runs);
  }

  // ---------------------------------------------------------------------------
  // groupBy + flatMap

  /** The merged runs of the coordinates in `done`, and nothing on any
      other line. */
  ghost predicate MergedUpTo(merged: seq<GridSegment>, segments: seq<GridSegment>, done: seq<int>)
  {
    forall f :: Group(merged, f) == if f in done then MergeAll(SortByStart(Group(segments, f))) else []
  }

  lemma MergedUpToStep(merged: seq<GridSegment>, segments: seq<GridSegment>, done: seq<int>, k: int)
    requires MergedUpTo(merged, segments, done) && k !in done
    ensures MergedUpTo(merged + MergeAll(SortByStart(Group(segments, k))), segments, done + [k])
  {
    var runs := MergeAll(SortByStart(Group(segments, k)));
    SortedKeepsFixed(Group(segments, k), k);
    MergeKeepsFixed(SortByStart(Group(segments, k)), k);
    forall f ensures Group(merged + runs, f) ==
      if f in done + [k] then MergeAll(SortByStart(Group(segments, f))) else []
    {
      GroupAppend(merged, runs, f);
      GroupOfAllFixed(runs, k, f);
      var before := Group(merged, f);
      assert before == if f in done then MergeAll(SortByStart(Group(segments, f))) else [];
      if f == k {
        assert before == [];
        assert Group(merged + runs, f) == [] + runs;
      } else {
        assert f in done + [k] <==> f in done;
        assert Group(merged + runs, f) == before + [];
      }
    }
  }

  /** `groupBy { it.fixed }.flatMap { sortedBy { it.start }.fold(...) }`: for
      each fixed coordinate, the runs returned on that line are the fold of
      that coordinate's segments sorted by start. */
  method MergeGroups(segments: seq<GridSegment>) returns (merged: seq<GridSegment>)
    ensures forall f :: Group(merged, f) == MergeAll(SortByStart(Group(segments, f)))
  {
    var keys := Keys(segments);
    merged := [];
    var i := 0;
    while i < |keys|
      invariant 0 <= i <= |keys|
      invariant MergedUpTo(merged, segments, keys[..i])
    {
      var k := keys[i];
      var runs := MergeRuns(SortByStart(Group(segments, k)));
      NextKey(keys, i);
      MergedUpToStep(merged, segments, keys[..i], k);
      merged := merged + runs;
      i := i + 1;
    }
    assert keys[..|keys|] == keys;
    MergedAllKeys(merged, segments);
  }

  /** The next key of a list without repeats is not among the earlier ones. */
  lemma NextKey(keys: seq<int>, i: int)
    requires forall a, b :: 0 <= a < b < |keys| ==> keys[a] != keys[b]
    requires 0 <= i < |keys|
    ensures keys[i] !in keys[..i]
    ensures keys[..i + 1] == keys[..i] + [keys[i]]
  {
    forall j | 0 <= j < i ensures keys[..i][j] != keys[i] {
      assert keys[j] != keys[i];
    }
  }

  lemma MergedAllKeys(merged: seq<GridSegment>, segments: seq<GridSegment>)
    requires MergedUpTo(merged, segments, Keys(segments))
    ensures forall f :: Group(merged, f) == MergeAll(SortByStart(Group(segments, f)))
  {
    forall f ensures Group(merged, f) == MergeAll(SortByStart(Group(segments, f))) {
      if f !in Keys(segments) && Group(segments, f) != [] {
        GroupMembers(segments, f, Group(segments, f)[0]);
      }
    }
  }

  lemma SortedKeepsFixed(segs: seq<GridSegment>, f: int)
    requires AllFixed(segs, f)
    ensures AllFixed(SortByStart(segs), f)
  {
    SortByStartSpec(segs);
    var r := SortByStart(segs);
    forall k | 0 <= k < |r| ensures r[k].fixed == f {
      assert r[k] in multiset(segs);
    }
  }

  lemma {:induction false} MergeKeepsFixed(segs: seq<GridSegment>, f: int)
    requires AllFixed(segs, f)
    ensures AllFixed(MergeAll(segs), f)
  {
    if segs != [] {
      MergeKeepsFixed(segs[..|segs| - 1], f);
    }
  }

  /** The input segments on line f, sorted, are well-formed. */
  lemma SortedGroupWellFormed(segments: seq<GridSegment>, f: int)
    requires WellFormed(segments)
    ensures var sorted := SortByStart(Group(segments, f));
      WellFormed(sorted) && SortedByStart(sorted) && AllFixed(sorted, f)
  {
    var g := Group(segments, f);
    var sorted := SortByStart(g);
    SortByStartSpec(g);
    SortedKeepsFixed(g, f);
    forall k | 0 <= k < |sorted| ensures sorted[k].start <= sorted[k].end {
      assert sorted[k] in multiset(g);
      GroupMembers(segments, f, sorted[k]);
    }
  }

  /** The sorted group covers what the input segments with fixed f cover. */
  lemma SortedGroupCovers(segments: seq<GridSegment>, f: int, v: real)
    ensures Covers(SortByStart(Group(segments, f)), v) <==>
      exists k :: 0 <= k < |segments| && segments[k].fixed == f &&
                  segments[k].start as real <= v <= segments[k].end as real
  {
    var g := Group(segments, f);
    var sorted := SortByStart(g);
    SortByStartSpec(g);
    if Covers(sorted, v) {
      var k :| 0 <= k < |sorted| && sorted[k].start as real <= v <= sorted[k].end as real;
      assert sorted[k] in multiset(g);
      GroupMembers(segments, f, sorted[k]);
      var k' :| 0 <= k' < |segments| && segments[k'] == sorted[k];
    }
    if exists k :: 0 <= k < |segments| && segments[k].fixed == f &&
                   segments[k].start as real <= v <= segments[k].end as real {
      var k :| 0 <= k < |segments| && segments[k].fixed == f &&
               segments[k].start as real <= v <= segments[k].end as real;
      GroupMembers(segments, f, segments[k]);
      assert segments[k] in multiset(sorted);
      var k' :| 0 <= k' < |sorted| && sorted[k'] == segments[k];
    }
  }

  /** What the merge promises per fixed coordinate f: the runs on that line
      are well-formed, sorted, pairwise separated, and cover exactly the union
      of the input segments on that line. */
  lemma MergedLineSpec(segments: seq<GridSegment>, f: int)
    requires WellFormed(segments)
    ensures var m := MergeAll(SortByStart(Group(segments, f)));
      && AllFixed(m, f) && WellFormed(m) && Separated(m) && SortedByStart(m)
      && forall v :: Covers(m, v) <==>
           exists k :: 0 <= k < |segments| && segments[k].fixed == f &&
                       segments[k].start as real <= v <= segments[k].end as real
  {
    var sorted := SortByStart(Group(segments, f));
    SortedGroupWellFormed(segments, f);
    MergeAllShape(sorted, f);
    SeparatedIsSorted(MergeAll(sorted));
    forall v ensures Covers(MergeAll(sorted), v) <==>
      exists k :: 0 <= k < |segments| && segments[k].fixed == f &&
                  segments[k].start as real <= v <= segments[k].end as real
    {
      MergeAllCovers(sorted, f, v);
      SortedGroupCovers(segments, f, v);
    }
  }
}
