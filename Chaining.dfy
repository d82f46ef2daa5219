/** `Cluster.chainSegments`: links the exposed edge segments of a cluster into
    polylines by matching endpoints. */
module Chaining {
  import opened Tiles

  /** A segment `first to second` (a Kotlin `Pair<Point, Point>`). */
  datatype Segment = Segment(first: Point, second: Point)

  /** Segment `s` joins the consecutive polyline points `a` and `b`, in either
      orientation. */
  predicate Links(s: Segment, a: Point, b: Point)
  {
    (s.first == a && s.second == b) || (s.first == b && s.second == a)
  }

  /** `s` has `p` as one of its endpoints. */
  predicate Touches(s: Segment, p: Point)
  {
    s.first == p || s.second == p
  }

  /** Polyline `poly` walks along the segments of `used`, one per step. */
  ghost predicate Traces(poly: seq<Point>, used: seq<Segment>)
  {
    |poly| == |used| + 1 &&
    forall k :: 0 <= k < |used| ==> Links(used[k], poly[k], poly[k + 1])
  }

  predicate Closed(poly: seq<Point>)
  {
    |poly| > 0 && poly[0] == poly[|poly| - 1]
  }

  /** The concatenation of a list of lists. */
  function Flatten<T>(xs: seq<seq<T>>): (r: seq<T>)
    ensures xs == [] ==> r == []
  {
    if xs == [] then [] else Flatten(xs[..|xs| - 1]) + xs[|xs| - 1]
  }

  /** The number of point-to-point steps of a list of polylines:
      the sum of (length - 1). */
  function StepCount(polys: seq<seq<Point>>): int
  {
    if polys == [] then 0 else StepCount(polys[..|polys| - 1]) + |polys[|polys| - 1]| - 1
  }

  lemma FlattenAppend<T>(xs: seq<seq<T>>, x: seq<T>)
    ensures Flatten(xs + [x]) == Flatten(xs) + x
  {
    assert (xs + [x])[..|xs|] == xs;
  }

  /** Polylines that trace the lists in `used` have as many steps as `used`
      has segments in all. */
  lemma {:induction false} StepCountOfTraces(polys: seq<seq<Point>>, used: seq<seq<Segment>>)
    requires |polys| == |used|
    requires forall j :: 0 <= j < |polys| ==> Traces(polys[j], used[j])
    ensures StepCount(polys) == |Flatten(used)|
  {
    if polys != [] {
      var n := |polys| - 1;
      StepCountOfTraces(polys[..n], used[..n]);
    }
  }

  /** The decomposition promised by `ChainSegments`: polyline j walks along
      `used[j]`, and every input segment is used exactly once. */
  ghost predicate Decomposes(polylines: seq<seq<Point>>, used: seq<seq<Segment>>, segments: seq<Segment>)
  {
    && |used| == |polylines|
    && (forall j :: 0 <= j < |polylines| ==> Traces(polylines[j], used[j]))
    && multiset(Flatten(used)) == multiset(segments)
  }

  /** No segment of `rest` can extend `poly` at either end. */
  ghost predicate Stuck(poly: seq<Point>, rest: seq<Segment>)
  {
    |poly| > 0 &&
    forall s :: s in rest ==> !Touches(s, poly[0]) && !Touches(s, poly[|poly| - 1])
  }

  /** Each polyline stopped growing because it closed, or because no segment
      left for the later polylines touches either of its ends. */
  ghost predicate MaximalChains(polylines: seq<seq<Point>>, used: seq<seq<Segment>>)
    requires |used| == |polylines|
  {
    forall j :: 0 <= j < |polylines| ==>
      Closed(polylines[j]) || Stuck(polylines[j], Flatten(used[j + 1..]))
  }

  lemma TracesAppend(poly: seq<Point>, used: seq<Segment>, s: Segment, p: Point)
    requires Traces(poly, used) && Links(s, poly[|poly| - 1], p)
    ensures Traces(poly + [p], used + [s])
  {
  }

  lemma TracesPrepend(poly: seq<Point>, used: seq<Segment>, s: Segment, p: Point)
    requires Traces(poly, used) && Links(s, p, poly[0])
    ensures Traces([p] + poly, [s] + used)
  {
    var poly', used' := [p] + poly, [s] + used;
    forall k | 0 <= k < |used'| ensures Links(used'[k], poly'[k], poly'[k + 1]) {
      if k > 0 {
        assert used'[k] == used[k - 1] && poly'[k] == poly[k - 1] && poly'[k + 1] == poly[k];
      }
    }
  }

  /** Kotlin's `removeAt(i)` on the list of remaining segments. */
  lemma RemoveAt(xs: seq<Segment>, i: int)
    requires 0 <= i < |xs|
    ensures multiset(xs) == multiset(xs[..i] + xs[i + 1..]) + multiset{xs[i]}
  {
    assert xs == xs[..i] + [xs[i]] + xs[i + 1..];
  }

  /** The test of one remaining segment against the polyline's ends: a
      segment starting or ending at the tail is appended there, else one
      starting or ending at the head is prepended there; either way its
      other end becomes the new end and the rest of the polyline stays. */
  method Extend(current: seq<Point>, ghost cur: seq<Segment>, seg: Segment)
    returns (current': seq<Point>, ghost cur': seq<Segment>, matched: bool)
    requires |current| >= 2 && Traces(current, cur)
    ensures |current'| >= 2 && Traces(current', cur')
    ensures matched ==> multiset(cur') == multiset(cur) + multiset{seg}
    ensures !matched ==> current' == current && cur' == cur
    ensures matched <==> Touches(seg, current[|current| - 1]) || Touches(seg, current[0])
    ensures Touches(seg, current[|current| - 1]) ==>
      |current'| == |current| + 1 && current'[..|current|] == current &&
      Links(seg, current[|current| - 1], current'[|current|])
    ensures !Touches(seg, current[|current| - 1]) && Touches(seg, current[0]) ==>
      |current'| == |current| + 1 && current'[1..] == current && Links(seg, current'[0], current[0])
  {
    var start := current[0];
    var end := current[|current| - 1];
    matched := true;
    if PointsEqual(seg.first, end) {
      TracesAppend(current, cur, seg, seg.second);
      current', cur' := current + [seg.second], cur + [seg];
    } else if PointsEqual(seg.second, end) {
      TracesAppend(current, cur, seg, seg.first);
      current', cur' := current + [seg.first], cur + [seg];
    } else if PointsEqual(seg.first, start) {
      TracesPrepend(current, cur, seg, seg.second);
      current', cur' := [seg.second] + current, [seg] + cur;
    } else if PointsEqual(seg.second, start) {
      TracesPrepend(current, cur, seg, seg.first);
      current', cur' := [seg.first] + current, [seg] + cur;
    } else {
      current', cur', matched := current, cur, false;
    }
  }

  /** One pass of the `for (i in remaining.indices.reversed())` scan: each
      remaining segment, from the back, that continues the tail (`first`
      before `second`) or else the head is added there and removed; the pass
      stops early once the polyline closes. */
  method ScanPass(current: seq<Point>, ghost cur: seq<Segment>, rest: seq<Segment>)
    returns (current': seq<Point>, ghost cur': seq<Segment>, rest': seq<Segment>, changed: bool, isClosed: bool)
    requires |current| >= 2 && Traces(current, cur)
    ensures |current'| >= 2 && Traces(current', cur')
    ensures multiset(cur') + multiset(rest') == multiset(cur) + multiset(rest)
    ensures changed ==> |rest'| < |rest|
    ensures !changed ==> rest' == rest && current' == current
    ensures isClosed ==> Closed(current')
    ensures !changed && !isClosed ==> Stuck(current, rest)
  {
    current', cur', rest' := current, cur, rest;
    changed, isClosed := false, false;
    var i := |rest'|;
    while i > 0
      invariant 0 <= i <= |rest'|
      invariant |current'| >= 2 && Traces(current', cur')
      invariant multiset(cur') + multiset(rest') == multiset(cur) + multiset(rest)
      invariant changed ==> |rest'| < |rest|
      invariant !changed ==> rest' == rest && current' == current
      invariant !changed ==> forall k :: i <= k < |rest| ==>
        !Touches(rest[k], current[0]) && !Touches(rest[k], current[|current| - 1])
      invariant isClosed ==> Closed(current')
      decreases i
    {
      i := i - 1;
      var matched;
      current', cur', matched := Extend(current', cur', rest'[i]);
      if matched {
        RemoveAt(rest', i);
        rest' := rest'[..i] + rest'[i + 1..];
        changed := true;
      }
      if PointsEqual(current'[0], current'[|current'| - 1]) {
        isClosed := true;
        break;
      }
    }
  }

  /** One polyline of `chainSegments`: seeded with `seed`, it repeats the scan
      while the previous pass added something and the polyline is not closed. */
  method GrowChain(seed: Segment, remaining: seq<Segment>)
    returns (current: seq<Point>, rest: seq<Segment>, ghost cur: seq<Segment>)
    ensures |current| >= 2 && Traces(current, cur)
    ensures multiset(cur) + multiset(rest) == multiset([seed] + remaining)
    ensures Closed(current) || Stuck(current, rest)
  {
    rest := remaining;
    current := [seed.first, seed.second];
    cur := [seed];
    var isClosed := false;
    var changed := true;
    while changed && !isClosed
      invariant |current| >= 2 && Traces(current, cur)
      invariant multiset(cur) + multiset(rest) == multiset([seed] + remaining)
      invariant isClosed ==> Closed(current)
      invariant !changed && !isClosed ==> Stuck(current, rest)
      decreases |rest| + (if changed then 1 else 0)
    {
      current, cur, rest, changed, isClosed := ScanPass(current, cur, rest);
    }
  }

  /** Stuck-ness depends only on which segments are left, not on their order. */
  lemma StuckSameElements(poly: seq<Point>, a: seq<Segment>, b: seq<Segment>)
    requires Stuck(poly, a) && multiset(a) == multiset(b)
    ensures Stuck(poly, b)
  {
    forall s | s in b ensures s in a {
      assert s in multiset(b);
    }
  }

  /** `left[j]` holds, in some order, the segments of the polylines after j
      together with those still `remaining`. */
  ghost predicate SnapshotsSplit(left: seq<seq<Segment>>, used: seq<seq<Segment>>, remaining: seq<Segment>)
  {
    |left| == |used| &&
    forall j :: 0 <= j < |used| ==>
      multiset(left[j]) == multiset(Flatten(used[j + 1..])) + multiset(remaining)
  }

  /** Starting polyline `cur` moves its segments from what is left into the
      later polylines, so every snapshot still splits the same way. */
  lemma ShiftSnapshots(used: seq<seq<Segment>>, left: seq<seq<Segment>>, cur: seq<Segment>,
                       atStart: seq<Segment>, remaining: seq<Segment>)
    requires SnapshotsSplit(left, used, atStart)
    requires multiset(cur) + multiset(remaining) == multiset(atStart)
    ensures SnapshotsSplit(left + [remaining], used + [cur], remaining)
  {
    var used', left' := used + [cur], left + [remaining];
    forall j | 0 <= j < |used'|
      ensures multiset(left'[j]) == multiset(Flatten(used'[j + 1..])) + multiset(remaining)
    {
      if j < |used| {
        assert used'[j + 1..] == used[j + 1..] + [cur];
        FlattenAppend(used[j + 1..], cur);
      } else {
        assert used'[j + 1..] == [];
      }
    }
  }

  /** Every polyline before the last stopped closed or stuck on its snapshot. */
  ghost predicate StoppedOn(polylines: seq<seq<Point>>, left: seq<seq<Segment>>)
  {
    |left| == |polylines| &&
    forall j :: 0 <= j < |polylines| ==> Closed(polylines[j]) || Stuck(polylines[j], left[j])
  }

  lemma StoppedOnAppend(polylines: seq<seq<Point>>, left: seq<seq<Segment>>, p: seq<Point>, rest: seq<Segment>)
    requires StoppedOn(polylines, left) && (Closed(p) || Stuck(p, rest))
    ensures StoppedOn(polylines + [p], left + [rest])
  {
  }

  /** The loop state of `chainSegments`: the polylines so far walk along
      their segments, which together with the remaining ones are the input,
      and each stopped closed or stuck on what was left at the time. */
  ghost predicate ChainedSoFar(polylines: seq<seq<Point>>, used: seq<seq<Segment>>, left: seq<seq<Segment>>,
                               remaining: seq<Segment>, segments: seq<Segment>)
  {
    && |used| == |polylines| == |left|
    && (forall j :: 0 <= j < |polylines| ==> |polylines[j]| >= 2 && Traces(polylines[j], used[j]))
    && multiset(Flatten(used)) + multiset(remaining) == multiset(segments)
    && StoppedOn(polylines, left)
    && SnapshotsSplit(left, used, remaining)
  }

  /** Appending one grown polyline keeps the loop state. */
  lemma ChainedStep(polylines: seq<seq<Point>>, used: seq<seq<Segment>>, left: seq<seq<Segment>>,
                    atStart: seq<Segment>, current: seq<Point>, cur: seq<Segment>, rest: seq<Segment>,
                    segments: seq<Segment>)
    requires ChainedSoFar(polylines, used, left, atStart, segments)
    requires |current| >= 2 && Traces(current, cur)
    requires multiset(cur) + multiset(rest) == multiset(atStart)
    requires Closed(current) || Stuck(current, rest)
    ensures ChainedSoFar(polylines + [current], used + [cur], left + [rest], rest, segments)
  {
    ShiftSnapshots(used, left, cur, atStart, rest);
    StoppedOnAppend(polylines, left, current, rest);
    FlattenAppend(used, cur);
  }

  /** `chainSegments`: seeds each new polyline with the first remaining
      segment and grows it (`GrowChain`) until no segment remains. Chains are
      neither closed nor checked nor dropped afterwards. */
  method ChainSegments(segments: seq<Segment>) returns (polylines: seq<seq<Point>>, ghost used: seq<seq<Segment>>)
    ensures polylines == [] <==> segments == []
    ensures forall j :: 0 <= j < |polylines| ==> |polylines[j]| >= 2
    ensures StepCount(polylines) == |segments|
    ensures Decomposes(polylines, used, segments)
    ensures MaximalChains(polylines, used)
  {
    polylines, used := [], [];
    if segments == [] {
      return;
    }
    var remaining := segments;
    ghost var left: seq<seq<Segment>> := [];  // what was left when polyline j stopped
    while remaining != []
      invariant ChainedSoFar(polylines, used, left, remaining, segments)
      invariant polylines == [] ==> remaining == segments
      decreases |remaining|
    {
      ghost var atStart := remaining;
      var firstSeg := remaining[0];
      assert atStart == [firstSeg] + remaining[1..];
      var current, rest, cur := GrowChain(firstSeg, remaining[1..]);
      ChainedStep(polylines, used, left, atStart, current, cur, rest, segments);
      remaining := rest;
      polylines, used, left := polylines + [current], used + [cur], left + [remaining];
    }
    StoppedOnSnapshots(polylines, used, left);
    StepCountOfTraces(polylines, used);
    assert |multiset(Flatten(used))| == |multiset(segments)|;
  }

  lemma StoppedOnSnapshots(polylines: seq<seq<Point>>, used: seq<seq<Segment>>, left: seq<seq<Segment>>)
    requires |used| == |polylines|
    requires StoppedOn(polylines, left) && SnapshotsSplit(left, used, [])
    ensures MaximalChains(polylines, used)
  {
    forall j | 0 <= j < |polylines| && !Closed(polylines[j])
      ensures Stuck(polylines[j], Flatten(used[j + 1..]))
    {
      StuckSameElements(polylines[j], left[j], Flatten(used[j + 1..]));
    }
  }

  /** Consequence of the decomposition: every step of every polyline is one of
      the input segments. */
  lemma StepsAreSegments(polylines: seq<seq<Point>>, used: seq<seq<Segment>>, segments: seq<Segment>, j: int, k: int)
    requires Decomposes(polylines, used, segments)
    requires 0 <= j < |polylines| && 0 <= k < |polylines[j]| - 1
    ensures exists s :: s in segments && Links(s, polylines[j][k], polylines[j][k + 1])
  {
    FlattenContains(used, j, k);
    var s := used[j][k];
    assert s in multiset(Flatten(used));
    assert s in multiset(segments);
    assert s in segments;
    assert Links(s, polylines[j][k], polylines[j][k + 1]);
  }

  lemma {:induction false} FlattenContains<T>(xs: seq<seq<T>>, j: int, k: int)
    requires 0 <= j < |xs| && 0 <= k < |xs[j]|
    ensures xs[j][k] in Flatten(xs)
  {
    var n := |xs| - 1;
    if j < n {
      FlattenContains(xs[..n], j, k);
    }
  }

  lemma {:induction false} FlattenMember<T>(xs: seq<seq<T>>, x: T) returns (j: int, k: int)
    requires x in Flatten(xs)
    ensures 0 <= j < |xs| && 0 <= k < |xs[j]| && xs[j][k] == x
  {
    var n := |xs| - 1;
    assert Flatten(xs) == Flatten(xs[..n]) + xs[n];
    if x in xs[n] {
      j := n;
      k :| 0 <= k < |xs[n]| && xs[n][k] == x;
    } else {
      j, k := FlattenMember(xs[..n], x);
    }
  }

  lemma {:induction false} FlattenHolds<T>(xs: seq<seq<T>>, j: int)
    requires 0 <= j < |xs|
    ensures multiset(xs[j]) <= multiset(Flatten(xs))
  {
    var n := |xs| - 1;
    assert Flatten(xs) == Flatten(xs[..n]) + xs[n];
    if j < n {
      FlattenHolds(xs[..n], j);
    }
  }

  /** An element at two positions occurs at least twice. */
  lemma CountTwice<T>(xs: seq<T>, i: int, k: int)
    requires 0 <= i < k < |xs| && xs[i] == xs[k]
    ensures multiset(xs)[xs[i]] >= 2
  {
    assert xs == xs[..k] + [xs[k]] + xs[k + 1..];
    assert xs[..k][i] == xs[i];
  }

  /** An element at one position only occurs once. */
  lemma CountOnce<T>(xs: seq<T>, i: int)
    requires 0 <= i < |xs|
    requires forall k :: 0 <= k < |xs| && k != i ==> xs[k] != xs[i]
    ensures multiset(xs)[xs[i]] == 1
  {
    assert xs == xs[..i] + [xs[i]] + xs[i + 1..];
    assert xs[i] !in xs[..i];
    var tail := xs[i + 1..];
    forall k | 0 <= k < |tail| ensures tail[k] != xs[i] {
      assert tail[k] == xs[i + 1 + k];
    }
    assert xs[i] !in tail;
  }

  /** A closed polyline has each of its points at the end of two of its
      steps; one with a point that only one step touches, and that step
      not from a point to itself, is open. */
  lemma OnlyToucherOpen(poly: seq<Point>, used: seq<Segment>, p: Point, i: int)
    requires Traces(poly, used) && 0 <= i < |used| && Touches(used[i], p)
    requires used[i].first != used[i].second
    requires forall k :: 0 <= k < |used| && k != i ==> !Touches(used[k], p)
    ensures !Closed(poly)
  {
    var n := |used|;
    assert Links(used[i], poly[i], poly[i + 1]);
    assert i > 0 ==> Links(used[i - 1], poly[i - 1], poly[i]);
    assert i + 1 < n ==> Links(used[i + 1], poly[i + 1], poly[i + 2]);
    assert Links(used[0], poly[0], poly[1]) && Links(used[n - 1], poly[n - 1], poly[n]);
  }

  // ---------------------------------------------------------------------------
  // Closed chains from even degrees

  /** How many ends of `s` lie at `p` (a segment from `p` to itself has two). */
  function Ends(s: Segment, p: Point): nat
  {
    (if s.first == p then 1 else 0) + (if s.second == p then 1 else 0)
  }

  /** The degree of `p` in a list of segments: how many segment ends lie there. */
  function Degree(p: Point, segs: seq<Segment>): nat
  {
    if segs == [] then 0 else Degree(p, segs[..|segs| - 1]) + Ends(segs[|segs| - 1], p)
  }

  /** Every point is an end of an even number of the segments, as on the
      boundary of a union of tiles. */
  ghost predicate EvenDegrees(segs: seq<Segment>)
  {
    forall p :: Degree(p, segs) % 2 == 0
  }

  lemma {:induction false} DegreeAppend(p: Point, a: seq<Segment>, b: seq<Segment>)
    ensures Degree(p, a + b) == Degree(p, a) + Degree(p, b)
    decreases |b|
  {
    if b == [] {
      assert a + b == a;
    } else {
      var n := |b| - 1;
      assert (a + b)[..|a + b| - 1] == a + b[..n];
      DegreeAppend(p, a, b[..n]);
    }
  }

  /** The degree depends only on which segments there are, not on their order. */
  lemma {:induction false} DegreeSameElements(p: Point, a: seq<Segment>, b: seq<Segment>)
    requires multiset(a) == multiset(b)
    ensures Degree(p, a) == Degree(p, b)
    decreases |a|
  {
    if a == [] {
      assert |multiset(b)| == 0;
    } else {
      var n := |a| - 1;
      var x := a[n];
      assert x in multiset(b);
      var i :| 0 <= i < |b| && b[i] == x;
      var rest := b[..i] + b[i + 1..];
      assert b == b[..i] + [x] + b[i + 1..];
      assert a == a[..n] + [x];
      assert multiset(a) == multiset(a[..n]) + multiset{x};
      assert multiset(b) == multiset(rest) + multiset{x};
      assert multiset(a[..n]) == multiset(a) - multiset{x};
      assert multiset(rest) == multiset(b) - multiset{x};
      DegreeSameElements(p, a[..n], rest);
      DegreeAppend(p, b[..i] + [x], b[i + 1..]);
      DegreeAppend(p, b[..i], [x]);
      DegreeAppend(p, b[..i], b[i + 1..]);
      assert [x][..0] == [];
    }
  }

  /** No segment touches `p`: its degree is zero. */
  lemma {:induction false} DegreeUntouched(p: Point, segs: seq<Segment>)
    requires forall s :: s in segs ==> !Touches(s, p)
    ensures Degree(p, segs) == 0
    decreases |segs|
  {
    if segs != [] {
      var n := |segs| - 1;
      assert segs[n] in segs;
      assert forall s :: s in segs[..n] ==> s in segs;
      DegreeUntouched(p, segs[..n]);
    }
  }

  /** A walk has odd degree at its two ends when they differ, and even degree
      at every other point. */
  lemma {:induction false} DegreeOfTrace(poly: seq<Point>, used: seq<Segment>, p: Point)
    requires Traces(poly, used)
    ensures (Degree(p, used) + (if poly[0] == p then 1 else 0) + (if poly[|poly| - 1] == p then 1 else 0)) % 2 == 0
    decreases |used|
  {
    if used != [] {
      var n := |used| - 1;
      DegreeOfTrace(poly[..n + 1], used[..n], p);
      assert Links(used[n], poly[n], poly[n + 1]);
    }
  }

  lemma {:induction false} FlattenConcat<T>(xs: seq<seq<T>>, ys: seq<seq<T>>)
    ensures Flatten(xs + ys) == Flatten(xs) + Flatten(ys)
    decreases |ys|
  {
    if ys == [] {
      assert xs + ys == xs;
    } else {
      var n := |ys| - 1;
      assert (xs + ys)[..|xs + ys| - 1] == xs + ys[..n];
      FlattenConcat(xs, ys[..n]);
    }
  }

  /** A walk that is open and stuck, after segments of even degrees and
      before segments that do not touch its ends, leaves its start with an
      odd degree. */
  lemma StuckOpenOdd(poly: seq<Point>, mine: seq<Segment>, before: seq<Segment>, after: seq<Segment>)
    requires Traces(poly, mine) && !Closed(poly) && Stuck(poly, after)
    requires forall p :: Degree(p, before) % 2 == 0
    ensures Degree(poly[0], before + mine + after) % 2 == 1
  {
    var e := poly[0];
    DegreeOfTrace(poly, mine, e);
    DegreeUntouched(e, after);
    DegreeAppend(e, before, mine);
    DegreeAppend(e, before + mine, after);
  }

  lemma {:induction false} FlattenSplit<T>(xs: seq<seq<T>>, i: int)
    requires 0 <= i < |xs|
    ensures Flatten(xs) == Flatten(xs[..i]) + xs[i] + Flatten(xs[i + 1..])
  {
    var front, back := xs[..i + 1], xs[i + 1..];
    assert xs == front + back;
    FlattenConcat(front, back);
    assert front[..i] == xs[..i];
    assert Flatten(front) == Flatten(xs[..i]) + xs[i];
  }

  /** The polylines before j are closed, and the segments they used leave
      every point with an even degree. */
  lemma {:induction false} ClosedBefore(polylines: seq<seq<Point>>, used: seq<seq<Segment>>,
                                        segments: seq<Segment>, j: int)
    requires Decomposes(polylines, used, segments) && MaximalChains(polylines, used)
    requires EvenDegrees(segments) && 0 <= j <= |polylines|
    ensures forall i :: 0 <= i < j ==> Closed(polylines[i])
    ensures forall p :: Degree(p, Flatten(used[..j])) % 2 == 0
    decreases j
  {
    if j > 0 {
      var i := j - 1;
      ClosedBefore(polylines, used, segments, i);
      var poly := polylines[i];
      assert used[..j] == used[..i] + [used[i]];
      FlattenAppend(used[..i], used[i]);
      if !Closed(poly) {
        assert Stuck(poly, Flatten(used[j..]));
        StuckOpenOdd(poly, used[i], Flatten(used[..i]), Flatten(used[j..]));
        FlattenSplit(used, i);
        DegreeSameElements(poly[0], Flatten(used), segments);
        assert false;
      }
      forall p ensures Degree(p, Flatten(used[..j])) % 2 == 0 {
        DegreeOfTrace(poly, used[i], p);
        DegreeAppend(p, Flatten(used[..i]), used[i]);
      }
    }
  }

  /** When every point is an end of an even number of the segments, every
      polyline `ChainSegments` returns is closed: an open one would stop stuck
      at its start, which would then have odd degree. */
  lemma EvenDegreesClose(polylines: seq<seq<Point>>, used: seq<seq<Segment>>, segments: seq<Segment>)
    requires Decomposes(polylines, used, segments) && MaximalChains(polylines, used)
    requires EvenDegrees(segments)
    ensures forall j :: 0 <= j < |polylines| ==> Closed(polylines[j])
  {
    ClosedBefore(polylines, used, segments, |polylines|);
  }

  /** Conversely, when every polyline is closed, every point is an end of an
      even number of the segments: each closed walk passes a point as often
      as it leaves it. */
  lemma ClosedEvenDegrees(polylines: seq<seq<Point>>, used: seq<seq<Segment>>, segments: seq<Segment>)
    requires Decomposes(polylines, used, segments)
    requires forall j :: 0 <= j < |polylines| ==> Closed(polylines[j])
    ensures EvenDegrees(segments)
  {
    forall p ensures Degree(p, segments) % 2 == 0 {
      forall j | 0 <= j < |used| ensures Degree(p, used[j]) % 2 == 0 {
        ClosedTraceEven(polylines[j], used[j], p);
      }
      FlattenEven(used, p);
      DegreeSameElements(p, Flatten(used), segments);
    }
  }

  /** Lists of segments each with even degree at `p` have even degree there
      together. */
  lemma {:induction false} FlattenEven(used: seq<seq<Segment>>, p: Point)
    requires forall j :: 0 <= j < |used| ==> Degree(p, used[j]) % 2 == 0
    ensures Degree(p, Flatten(used)) % 2 == 0
    decreases |used|
  {
    if used != [] {
      var n := |used| - 1;
      FlattenEven(used[..n], p);
      DegreeAppend(p, Flatten(used[..n]), used[n]);
    }
  }

  /** A closed walk is an end of an even number of its steps at every point. */
  lemma ClosedTraceEven(poly: seq<Point>, used: seq<Segment>, p: Point)
    requires Traces(poly, used) && Closed(poly)
    ensures Degree(p, used) % 2 == 0
  {
    DegreeOfTrace(poly, used, p);
    var e := if poly[0] == p then 1 else 0;
    assert (Degree(p, used) + e + e) % 2 == 0;
  }

  /** When only one segment touches `p`, the degree of `p` is that segment's
      number of ends there. */
  lemma DegreeOfOnlyToucher(p: Point, segs: seq<Segment>, i: int)
    requires 0 <= i < |segs|
    requires forall k :: 0 <= k < |segs| && k != i ==> !Touches(segs[k], p)
    ensures Degree(p, segs) == Ends(segs[i], p)
  {
    var before, after := segs[..i], segs[i + 1..];
    assert segs == before + [segs[i]] + after;
    forall s | s in before ensures !Touches(s, p) {
      var k :| 0 <= k < |before| && before[k] == s;
      assert s == segs[k];
    }
    forall s | s in after ensures !Touches(s, p) {
      var k :| 0 <= k < |after| && after[k] == s;
      assert s == segs[i + 1 + k];
    }
    DegreeUntouched(p, before);
    DegreeUntouched(p, after);
    DegreeAppend(p, before + [segs[i]], after);
    DegreeAppend(p, before, [segs[i]]);
    assert [segs[i]][..0] == [];
  }
}
