/**
 Planning and fetching regions of a document (`plan_pack_ranges`, `merge_planned_ranges` and
 `fetch_regions` in crates/index/src/pack.rs).
 */
module Regions {
  import opened Wrappers
  import opened Lines

  datatype PackRange =
    | RegionalRange(start: nat, end: nat, span: nat)
    | LinesRange(start: nat, end: nat, before: nat, after: nat)

  datatype Read = Regional | FullLines(before: nat, after: nat)

  datatype Planned = Planned(start: nat, end: nat, read: Read)

  datatype Limits = Limits(gap: nat, maxRanges: nat)

  // ---------------------------------------------------------------------------------------------
  // Merging

  ghost predicate StartsAscend(rs: seq<Planned>) {
    forall i, j :: 0 <= i < j < |rs| ==> rs[i].start <= rs[j].start
  }

  function InsertByStart(r: Planned, rs: seq<Planned>): seq<Planned> {
    if rs == [] || r.start <= rs[0].start then [r] + rs else [rs[0]] + InsertByStart(r, rs[1..])
  }

  function SortByStart(rs: seq<Planned>): seq<Planned> {
    if rs == [] then [] else InsertByStart(rs[0], SortByStart(rs[1..]))
  }

  lemma {:induction false} InsertAscends(r: Planned, rs: seq<Planned>)
    requires StartsAscend(rs)
    ensures StartsAscend(InsertByStart(r, rs))
    ensures forall x :: x in InsertByStart(r, rs) <==> x == r || x in rs
  {
    if rs != [] {
      assert rs == [rs[0]] + rs[1..];
      if r.start > rs[0].start {
        InsertAscends(r, rs[1..]);
        var rest := InsertByStart(r, rs[1..]);
        forall j | 0 <= j < |rest| ensures rs[0].start <= rest[j].start {
          assert rest[j] in rest;
        }
      }
    }
  }

  lemma {:induction false} SortAscends(rs: seq<Planned>)
    ensures StartsAscend(SortByStart(rs))
    ensures forall x :: x in SortByStart(rs) <==> x in rs
  {
    if rs != [] {
      SortAscends(rs[1..]);
      InsertAscends(rs[0], SortByStart(rs[1..]));
      assert rs == [rs[0]] + rs[1..];
    }
  }

  /** A read that serves another: full lines serve a regional read, wider context serves narrower. */
  predicate Serves(read: Read, want: Read) {
    want.Regional? || (read.FullLines? && read.before >= want.before && read.after >= want.after)
  }

  function Combine(a: Read, b: Read): (r: Read)
    ensures Serves(r, a) && Serves(r, b)
  {
    match (a, b)
    case (FullLines(ab, aa), FullLines(bb, ba)) => FullLines(if ab > bb then ab else bb, if aa > ba then aa else ba)
    case (Regional, FullLines(_, _)) => b
    case _ => a
  }

  lemma ServesTrans(a: Read, b: Read, c: Read)
    requires Serves(a, b) && Serves(b, c)
    ensures Serves(a, c)
  {
  }

  predicate Holds(m: Planned, r: Planned) {
    m.start <= r.start && r.end <= m.end && Serves(m.read, r.read)
  }

  ghost predicate Held(merged: seq<Planned>, r: Planned) {
    exists i :: 0 <= i < |merged| && Holds(merged[i], r)
  }

  /** More than `gap` bytes lie between consecutive ranges. */
  ghost predicate Spread(merged: seq<Planned>, gap: nat) {
    forall i, j :: 0 <= i < j < |merged| ==> merged[i].end + gap < merged[j].start
  }

  /** The loop body: grow the last range, or start a new one. */
  function MergeOne(merged: seq<Planned>, r: Planned, gap: nat): seq<Planned> {
    if merged != [] && (var last := merged[|merged| - 1]; r.start <= last.end + gap) then
      var last := merged[|merged| - 1];
      merged[|merged| - 1 := Planned(last.start, if last.end > r.end then last.end else r.end, Combine(last.read, r.read))]
    else merged + [r]
  }

  /** A property of ranges that merging two of them at most `gap` apart cannot break. */
  ghost predicate Mergeable(p: Planned -> bool, gap: nat) {
    forall a, b :: p(a) && p(b) && a.start <= b.start <= a.end + gap ==>
      p(Planned(a.start, if a.end > b.end then a.end else b.end, Combine(a.read, b.read)))
  }

  /** No input is reversed. */
  ghost predicate Forward(ranges: seq<Planned>) { forall r :: r in ranges ==> r.start <= r.end }

  /** The range begins and ends with inputs, and each of its bytes is in one or less than `gap` behind one. */
  ghost predicate Grounded(ranges: seq<Planned>, gap: nat, m: Planned) {
    && (exists r :: r in ranges && r.start == m.start) && (exists r :: r in ranges && r.start <= r.end == m.end)
    && forall c: nat :: m.start <= c < m.end ==> Reached(ranges, gap, c)
  }

  ghost predicate Reached(ranges: seq<Planned>, gap: nat, c: nat) {
    exists r :: r in ranges && r.start <= c < r.end + gap
  }

  /** What the merge keeps of every range: the caller's property, and that nothing needless is in it. */
  ghost function Kept(ranges: seq<Planned>, gap: nat, p: Planned -> bool): Planned -> bool {
    m => p(m) && (Forward(ranges) ==> Grounded(ranges, gap, m))
  }

  lemma KeptMerges(ranges: seq<Planned>, gap: nat, p: Planned -> bool)
    requires Mergeable(p, gap)
    ensures Mergeable(Kept(ranges, gap, p), gap)
  {
    hide Grounded, Combine;
    forall a: Planned, b: Planned | a.start <= b.start <= a.end + gap && Grounded(ranges, gap, a) && Grounded(ranges, gap, b)
      ensures Grounded(ranges, gap, Planned(a.start, if a.end > b.end then a.end else b.end, Combine(a.read, b.read)))
    {
      GroundedJoin(ranges, gap, a, b, Combine(a.read, b.read));
    }
  }

  lemma GroundedJoin(ranges: seq<Planned>, gap: nat, a: Planned, b: Planned, read: Read)
    requires Grounded(ranges, gap, a) && Grounded(ranges, gap, b) && a.start <= b.start <= a.end + gap
    ensures Grounded(ranges, gap, Planned(a.start, if a.end > b.end then a.end else b.end, read))
  {
    var m := Planned(a.start, if a.end > b.end then a.end else b.end, read);
    var last :| last in ranges && last.start <= last.end == a.end;
    forall c: nat | m.start <= c < m.end ensures Reached(ranges, gap, c) {
      if a.end <= c < b.start {
        assert last.start <= c < last.end + gap;
      }
    }
  }

  lemma KeptAtFirst(ranges: seq<Planned>, gap: nat, p: Planned -> bool, r: Planned)
    requires r in ranges && p(r)
    ensures Kept(ranges, gap, p)(r)
  {
    if Forward(ranges) {
      forall c: nat | r.start <= c < r.end ensures Reached(ranges, gap, c) {
        assert r.start <= c < r.end + gap;
      }
    }
  }

  lemma MergeOneHolds(merged: seq<Planned>, r: Planned, gap: nat, x: Planned)
    requires Held(merged, x)
    ensures Held(MergeOne(merged, r, gap), x)
  {
    var out := MergeOne(merged, r, gap);
    if merged != [] && r.start <= merged[|merged| - 1].end + gap {
      var n := |merged| - 1;
      var i :| 0 <= i < |merged| && Holds(merged[i], x);
      if i == n {
        ServesTrans(out[n].read, merged[n].read, x.read);
      }
      assert Holds(out[i], x);
    } else {
      var i :| 0 <= i < |merged| && Holds(merged[i], x);
      assert Holds(out[i], x);
    }
  }

  /** State of the merge after the first `n` sorted ranges. */
  ghost predicate Merging(sorted: seq<Planned>, n: nat, merged: seq<Planned>, gap: nat, p: Planned -> bool) {
    && n <= |sorted|
    && (forall k :: 0 <= k < n ==> Held(merged, sorted[k]))
    && Spread(merged, gap) && (forall i :: 0 <= i < |merged| ==> p(merged[i]))
    && (forall i, k :: 0 <= i < |merged| && n <= k < |sorted| ==> merged[i].start <= sorted[k].start)
  }

  /** `merge_planned_ranges`: every range is held by a merged one, and the merged ones are apart. */
  method MergePlannedRanges(ranges: seq<Planned>, gap: nat, ghost p: Planned -> bool) returns (merged: seq<Planned>)
    requires Mergeable(p, gap) && forall r :: r in ranges ==> p(r)
    ensures forall r :: r in ranges ==> Held(merged, r)
    ensures Spread(merged, gap)
    ensures forall i :: 0 <= i < |merged| ==> p(merged[i])
    ensures Forward(ranges) ==> forall i :: 0 <= i < |merged| ==> Grounded(ranges, gap, merged[i])
  {
    var sorted := SortByStart(ranges);
    SortAscends(ranges);
    merged := [];
    hide Held, Spread, SortByStart, MergeOne, Mergeable, Grounded, Forward;
    ghost var kept := Kept(ranges, gap, p);
    KeptMerges(ranges, gap, p);
    assert Merging(sorted, 0, merged, gap, kept) by { NothingMerged(sorted, gap, kept); }
    for n := 0 to |sorted|
      invariant Merging(sorted, n, merged, gap, kept)
    {
      assert sorted[n] in sorted;
      KeptAtFirst(ranges, gap, p, sorted[n]);
      MergeStep(sorted, n, merged, gap, kept);
      merged := MergeOne(merged, sorted[n], gap);
    }
  }

  lemma NothingMerged(sorted: seq<Planned>, gap: nat, p: Planned -> bool)
    ensures Merging(sorted, 0, [], gap, p)
  {
  }

  lemma MergeStep(sorted: seq<Planned>, n: nat, merged: seq<Planned>, gap: nat, p: Planned -> bool)
    requires Mergeable(p, gap) && Merging(sorted, n, merged, gap, p) && n < |sorted| && p(sorted[n]) && StartsAscend(sorted)
    ensures Merging(sorted, n + 1, MergeOne(merged, sorted[n], gap), gap, p)
  {
    var r, out := sorted[n], MergeOne(merged, sorted[n], gap);
    hide Held, Holds, Combine;
    forall k | 0 <= k < n + 1 ensures Held(out, sorted[k]) {
      if k < n {
        MergeOneHolds(merged, r, gap, sorted[k]);
      } else {
        LastHolds(merged, r, gap);
      }
    }
    MergeSpreads(merged, r, gap);
    hide MergeOne;
    MergeKeepsEach(sorted, n, merged, gap, p);
  }

  lemma LastHolds(merged: seq<Planned>, r: Planned, gap: nat)
    requires merged != [] ==> merged[|merged| - 1].start <= r.start
    ensures Held(MergeOne(merged, r, gap), r)
  {
    var out := MergeOne(merged, r, gap);
    assert Serves(r.read, r.read);
    assert Holds(out[|out| - 1], r);
  }

  lemma MergeSpreads(merged: seq<Planned>, r: Planned, gap: nat)
    requires Spread(merged, gap) && (merged != [] ==> merged[|merged| - 1].start <= r.start)
    ensures Spread(MergeOne(merged, r, gap), gap)
  {
    hide Combine;
    if merged != [] {
      var n := |merged| - 1;
      var out := MergeOne(merged, r, gap);
      forall i, j | 0 <= i < j < |out| ensures out[i].end + gap < out[j].start {
        if j == |merged| && i < n {
          assert merged[i].end + gap < merged[n].start;
        }
      }
    }
  }

  lemma MergeKeepsEach(sorted: seq<Planned>, n: nat, merged: seq<Planned>, gap: nat, p: Planned -> bool)
    requires Mergeable(p, gap) && Merging(sorted, n, merged, gap, p) && n < |sorted| && p(sorted[n]) && StartsAscend(sorted)
    ensures var out := MergeOne(merged, sorted[n], gap);
      && (forall i :: 0 <= i < |out| ==> p(out[i]))
      && (forall i, k :: 0 <= i < |out| && n + 1 <= k < |sorted| ==> out[i].start <= sorted[k].start)
  {
    hide Held, Spread, Combine;
  }

  // ---------------------------------------------------------------------------------------------
  // Planning

  predicate Valid(r: PackRange, size: nat) {
    r.start < r.end <= size && (r.RegionalRange? ==> r.span > 0)
  }

  /** A regional request is widened so that any match touching it fits. */
  function Plan(r: PackRange, size: nat): Planned
    requires Valid(r, size)
  {
    match r
    case RegionalRange(start, end, span) =>
      var overlap := span - 1;
      Planned(if start < overlap then 0 else start - overlap, if end + overlap < size then end + overlap else size, Regional)
    case LinesRange(start, end, before, after) => Planned(start, end, FullLines(before, after))
  }

  predicate InDocument(size: nat, r: Planned) { r.start < r.end <= size }

  function Coverage(rs: seq<Planned>): int {
    if rs == [] then 0 else Coverage(rs[..|rs| - 1]) + rs[|rs| - 1].end - rs[|rs| - 1].start
  }

  /** The planned ranges of the requests, one each. */
  ghost predicate PlansOf(requests: seq<PackRange>, size: nat, ranges: seq<Planned>) {
    && |ranges| == |requests|
    && forall k :: 0 <= k < |ranges| ==> Valid(requests[k], size) && ranges[k] == Plan(requests[k], size)
  }

  /** Ranges further apart than the gap that hold every input and nothing needless. */
  ghost predicate IsMerge(ranges: seq<Planned>, gap: nat, merged: seq<Planned>) {
    && (forall r :: r in ranges ==> Held(merged, r)) && Spread(merged, gap)
    && forall k :: 0 <= k < |merged| ==> Grounded(ranges, gap, merged[k])
  }

  /** More ranges than allowed, or more than half of the document. */
  predicate TooMuch(merged: seq<Planned>, size: nat, limits: Limits) {
    |merged| > limits.maxRanges || Coverage(merged) * 2 > size
  }

  /** Merging the requests' ranges gives too much, or little enough, to fetch by ranges. */
  ghost predicate MergesTo(requests: seq<PackRange>, size: nat, limits: Limits, whole: bool) {
    exists ranges, merged :: PlansOf(requests, size, ranges) && IsMerge(ranges, limits.gap, merged) && TooMuch(merged, size, limits) == whole
  }

  lemma MergeTells(requests: seq<PackRange>, size: nat, limits: Limits, ranges: seq<Planned>, merged: seq<Planned>)
    requires PlansOf(requests, size, ranges) && (forall r :: r in ranges ==> Held(merged, r)) && Spread(merged, limits.gap)
    requires Forward(ranges) ==> forall k :: 0 <= k < |merged| ==> Grounded(ranges, limits.gap, merged[k])
    ensures MergesTo(requests, size, limits, TooMuch(merged, size, limits))
    ensures IsMerge(ranges, limits.gap, merged)
  {
    hide *;
    PlansForward(requests, size, ranges);
    MergeHolds(ranges, limits.gap, merged);
    Merges(requests, size, limits, ranges, merged);
  }

  lemma PlansForward(requests: seq<PackRange>, size: nat, ranges: seq<Planned>)
    requires PlansOf(requests, size, ranges)
    ensures Forward(ranges)
  {
    forall r | r in ranges ensures r.start <= r.end {
      var k :| 0 <= k < |ranges| && ranges[k] == r;
    }
  }

  lemma MergeHolds(ranges: seq<Planned>, gap: nat, merged: seq<Planned>)
    requires (forall r :: r in ranges ==> Held(merged, r)) && Spread(merged, gap)
    requires forall k :: 0 <= k < |merged| ==> Grounded(ranges, gap, merged[k])
    ensures IsMerge(ranges, gap, merged)
  {
    hide Held, Spread, Grounded;
  }

  lemma Merges(requests: seq<PackRange>, size: nat, limits: Limits, ranges: seq<Planned>, merged: seq<Planned>)
    requires PlansOf(requests, size, ranges) && IsMerge(ranges, limits.gap, merged)
    ensures MergesTo(requests, size, limits, TooMuch(merged, size, limits))
  {
    hide PlansOf, IsMerge, TooMuch;
  }

  lemma IsPlansOf(requests: seq<PackRange>, size: nat, ranges: seq<Planned>)
    requires |ranges| == |requests|
    requires forall k :: 0 <= k < |ranges| ==> Valid(requests[k], size) && ranges[k] == Plan(requests[k], size)
    ensures PlansOf(requests, size, ranges)
  {
  }

  lemma TooMuchIs(merged: seq<Planned>, size: nat, limits: Limits)
    ensures TooMuch(merged, size, limits) <==> |merged| > limits.maxRanges || Coverage(merged) * 2 > size
  {
  }

  /** `None` means that the whole document is cheaper to fetch: exactly when the merged ranges are too much. */
  method PlanPackRanges(size: nat, requests: seq<PackRange>, limits: Limits) returns (r: Result<Option<seq<Planned>>>)
    ensures r.Ok? <==> forall q :: q in requests ==> Valid(q, size)
    ensures r.Ok? && r.value.Some? ==>
              && (forall q :: q in requests ==> Held(r.value.value, Plan(q, size)))
              && Spread(r.value.value, limits.gap)
              && (forall k :: 0 <= k < |r.value.value| ==> InDocument(size, r.value.value[k]))
              && (AllLines(requests) ==> forall k :: 0 <= k < |r.value.value| ==> r.value.value[k].read.FullLines?)
              && !TooMuch(r.value.value, size, limits)
    ensures r.Ok? ==> MergesTo(requests, size, limits, r.value.None?)
  {
    var ranges: seq<Planned> := [];
    for i := 0 to |requests|
      invariant |ranges| == i && forall k :: 0 <= k < i ==> Valid(requests[k], size) && ranges[k] == Plan(requests[k], size)
    {
      if !Valid(requests[i], size) {
        assert requests[i] in requests;
        return Err;
      }
      ranges := ranges + [Plan(requests[i], size)];
    }
    hide *;
    PlansInside(size, requests, ranges);
    UnionInside(size, AllLines(requests), limits.gap);
    var merged := MergePlannedRanges(ranges, limits.gap, PlannedInside(size, AllLines(requests)));
    MergedPlans(size, AllLines(requests), merged);
    RequestsHeld(size, requests, ranges, merged);
    IsPlansOf(requests, size, ranges);
    MergeTells(requests, size, limits, ranges, merged);
    TooMuchIs(merged, size, limits);
    if |merged| > limits.maxRanges || Coverage(merged) * 2 > size {
      return Ok(None);
    }
    return Ok(Some(merged));
  }

  /** Only full lines are asked for. */
  ghost predicate AllLines(requests: seq<PackRange>) { forall q :: q in requests ==> q.LinesRange? }

  /** Inside the document, and a full-line read when only those were asked for. */
  ghost function PlannedInside(size: nat, lines: bool): Planned -> bool {
    m => InDocument(size, m) && (lines ==> m.read.FullLines?)
  }

  lemma UnionInside(size: nat, lines: bool, gap: nat)
    ensures Mergeable(PlannedInside(size, lines), gap)
  {
  }

  lemma PlansInside(size: nat, requests: seq<PackRange>, ranges: seq<Planned>)
    requires |ranges| == |requests|
    requires forall k :: 0 <= k < |ranges| ==> Valid(requests[k], size) && ranges[k] == Plan(requests[k], size)
    ensures forall m :: m in ranges ==> PlannedInside(size, AllLines(requests))(m)
  {
    forall m | m in ranges ensures PlannedInside(size, AllLines(requests))(m) {
      var k :| 0 <= k < |ranges| && ranges[k] == m;
      assert requests[k] in requests;
    }
  }

  lemma MergedPlans(size: nat, lines: bool, merged: seq<Planned>)
    requires forall k :: 0 <= k < |merged| ==> PlannedInside(size, lines)(merged[k])
    ensures forall k :: 0 <= k < |merged| ==> InDocument(size, merged[k]) && (lines ==> merged[k].read.FullLines?)
  {
  }

  lemma RequestsHeld(size: nat, requests: seq<PackRange>, ranges: seq<Planned>, merged: seq<Planned>)
    requires |ranges| == |requests| && forall k :: 0 <= k < |ranges| ==> Valid(requests[k], size) && ranges[k] == Plan(requests[k], size)
    requires forall m :: m in ranges ==> Held(merged, m)
    ensures forall q :: q in requests ==> Valid(q, size) && Held(merged, Plan(q, size))
  {
    hide Valid, Held, Plan;
    forall q | q in requests ensures Valid(q, size) && Held(merged, Plan(q, size)) {
      var k :| 0 <= k < |requests| && requests[k] == q;
      assert ranges[k] in ranges;
    }
  }

  /** The range begins and ends between lines. */
  ghost predicate Aligned(doc: seq<Byte>, m: Planned) {
    m.start <= |doc| && StartsLine(doc, m.start) && (m.end == |doc| || (m.end < |doc| && StartsLine(doc, m.end)))
  }

  /** Inside the document, and between lines when only full lines were asked for. */
  ghost function WholeLines(doc: seq<Byte>, lines: bool): Planned -> bool {
    m => InDocument(|doc|, m) && (lines ==> m.read.FullLines? && Aligned(doc, m))
  }

  lemma UnionAligned(doc: seq<Byte>, lines: bool)
    ensures Mergeable(WholeLines(doc, lines), 0)
  {
    hide StartsLine;
  }

  // ---------------------------------------------------------------------------------------------
  // Fetching

  /** A region as handed to the matcher: its bytes, and the line its start is on. */
  datatype Region = Region(start: nat, line: nat, lineOffset: nat, bytes: seq<Byte>, fullProgram: bool)

  predicate RegionHolds(region: Region, a: nat, b: nat) {
    region.start <= a && b <= region.start + |region.bytes|
  }

  ghost predicate Fetched(doc: seq<Byte>, region: Region) {
    && region.start + |region.bytes| <= |doc|
    && region.bytes == doc[region.start..region.start + |region.bytes|]
    && region.line == LineNumber(doc, region.start) && IsLineStart(doc, region.start, region.lineOffset)
  }

  function LinesAfter(doc: seq<Byte>, to: nat, after: nat): nat
    requires to <= |doc|
  {
    ForwardLines(doc, to, if StartsLine(doc, to) then after else after + 1)
  }

  /** What a request is promised: every short match touching it, or its lines with their context. */
  ghost predicate Served(doc: seq<Byte>, q: PackRange, regions: seq<Region>)
    requires Valid(q, |doc|)
  {
    match q
    case RegionalRange(start, end, span) =>
      forall a: nat, b: nat :: a <= b <= |doc| && b - a <= span && a < end && start < b ==> AnyHolds(regions, a, b)
    case LinesRange(start, end, before, after) =>
      AnyFullHolds(regions, BackLines(doc, start, before + 1), LinesAfter(doc, end, after))
  }

  ghost predicate AnyHolds(regions: seq<Region>, a: nat, b: nat) {
    exists k :: 0 <= k < |regions| && RegionHolds(regions[k], a, b)
  }

  ghost predicate AnyFullHolds(regions: seq<Region>, a: nat, b: nat) {
    exists k :: 0 <= k < |regions| && regions[k].fullProgram && RegionHolds(regions[k], a, b)
  }

  lemma {:induction false} BackMonotone(doc: seq<Byte>, at: nat, a: nat, m: nat, n: nat)
    requires at <= a <= |doc| && m >= n > 0
    ensures BackLines(doc, at, m) <= BackLines(doc, a, n)
    decreases a
  {
    if a > 0 {
      if at == a {
        if doc[a - 1] != NEWLINE {
          BackMonotone(doc, a - 1, a - 1, m, n);
        } else if n > 1 {
          BackMonotone(doc, a - 1, a - 1, m - 1, n - 1);
        }
      } else if doc[a - 1] != NEWLINE {
        BackMonotone(doc, at, a - 1, m, n);
      } else if n > 1 {
        BackMonotone(doc, at, a - 1, m, n - 1);
      }
    }
  }

  lemma {:induction false} ForwardMonotone(doc: seq<Byte>, a: nat, b: nat, n: nat, m: nat)
    requires a <= b <= |doc| && m + Newlines(doc, a, b) >= n
    ensures ForwardLines(doc, a, n) <= ForwardLines(doc, b, m)
    decreases |doc| - a
  {
    if n > 0 && a < |doc| {
      var k := if doc[a] == NEWLINE then n - 1 else n;
      if a < b {
        NewlinesSplit(doc, a, a + 1, b);
        assert Newlines(doc, a, a + 1) == if doc[a] == NEWLINE then 1 else 0;
        ForwardMonotone(doc, a + 1, b, k, m);
      } else {
        ForwardMonotone(doc, a + 1, a + 1, k, if doc[a] == NEWLINE then m - 1 else m);
      }
    }
  }

  lemma LinesAfterMonotone(doc: seq<Byte>, a: nat, b: nat, n: nat, m: nat)
    requires a <= b <= |doc| && m >= n
    ensures LinesAfter(doc, a, n) <= LinesAfter(doc, b, m)
  {
    if a < b && StartsLine(doc, b) {
      NewlinesSplit(doc, a, b - 1, b);
      assert Newlines(doc, b - 1, b) == 1;
    }
    ForwardMonotone(doc, a, b, if StartsLine(doc, a) then n else n + 1, if StartsLine(doc, b) then m else m + 1);
  }

  /** The byte range a planned read turns into. */
  function Exact(doc: seq<Byte>, r: Planned): Planned
    requires InDocument(|doc|, r)
  {
    match r.read
    case Regional => r
    case FullLines(before, after) => Planned(BackLines(doc, r.start, before + 1), LinesAfter(doc, r.end, after), r.read)
  }

  lemma ExactHolds(doc: seq<Byte>, r: Planned, want: Planned)
    requires InDocument(|doc|, r) && InDocument(|doc|, want) && Holds(r, want)
    ensures Exact(doc, r).start <= Exact(doc, want).start && Exact(doc, want).end <= Exact(doc, r).end
    ensures Exact(doc, r).start < Exact(doc, r).end <= |doc|
    ensures want.read.FullLines? ==> Exact(doc, r).read.FullLines?
  {
    if want.read.FullLines? {
      BackMonotone(doc, r.start, want.start, r.read.before + 1, want.read.before + 1);
      LinesAfterMonotone(doc, want.end, r.end, want.read.after, r.read.after);
    }
  }

  method FetchRegions(doc: seq<Byte>, B: nat, counts: seq<nat>, requests: seq<PackRange>, limits: Limits)
    returns (r: Result<Option<seq<Region>>>)
    requires B >= 1 && CountsOk(doc, B, counts)
    ensures r.Ok? <==> forall q :: q in requests ==> Valid(q, |doc|)
    ensures r.Ok? && r.value.Some? ==>
              && (forall k :: 0 <= k < |r.value.value| ==> Fetched(doc, r.value.value[k]))
              && (forall q :: q in requests ==> Served(doc, q, r.value.value))
              && (AllLines(requests) ==> forall k :: 0 <= k < |r.value.value| ==> OnLines(doc, r.value.value[k]))
    ensures r.Ok? ==> MergesTo(requests, |doc|, limits, r.value.None?)
  {
    hide *;
    var planned := PlanPackRanges(|doc|, requests, limits);
    if planned.Err? {
      return Err;
    }
    if planned.value.None? {
      return Ok(None);
    }
    var ranges := planned.value.value;
    var exact := ExactRanges(doc, B, counts, ranges);
    ghost var lines := AllLines(requests);
    UnionAligned(doc, lines);
    AllExact(doc, lines, ranges, exact);
    var merged := MergePlannedRanges(exact, 0, WholeLines(doc, lines));
    MergedInside(doc, lines, merged);
    var regions := ReadRegions(doc, B, counts, merged);
    RegionsOnLines(doc, lines, merged, regions);
    forall q | q in requests ensures Served(doc, q, regions) {
      RequestServed(doc, q, ranges, exact, merged, regions);
    }
    return Ok(Some(regions));
  }

  /** The region begins and ends between lines and is searched with the whole program. */
  ghost predicate OnLines(doc: seq<Byte>, region: Region) {
    && region.fullProgram && region.start <= |doc| && StartsLine(doc, region.start)
    && var end := region.start + |region.bytes|;
    end == |doc| || (end < |doc| && StartsLine(doc, end))
  }

  lemma ExactAligned(doc: seq<Byte>, r: Planned)
    requires InDocument(|doc|, r) && r.read.FullLines?
    ensures Aligned(doc, Exact(doc, r))
  {
    BackLinesIs(doc, r.start, r.read.before + 1);
    ForwardLinesIs(doc, r.end, if StartsLine(doc, r.end) then r.read.after else r.read.after + 1);
    hide BackLines, ForwardLines;
    var e := Exact(doc, r).end;
    assert e == r.end ==> Newlines(doc, r.end, e) == 0;
  }

  lemma AllExact(doc: seq<Byte>, lines: bool, ranges: seq<Planned>, exact: seq<Planned>)
    requires |exact| == |ranges| && forall k :: 0 <= k < |ranges| ==> InDocument(|doc|, ranges[k]) && exact[k] == Exact(doc, ranges[k])
    requires lines ==> forall k :: 0 <= k < |ranges| ==> ranges[k].read.FullLines?
    requires forall m :: m in exact ==> InDocument(|doc|, m)
    ensures forall m :: m in exact ==> WholeLines(doc, lines)(m)
  {
    hide Aligned;
    forall m | m in exact ensures WholeLines(doc, lines)(m) {
      var k :| 0 <= k < |exact| && exact[k] == m;
      if lines {
        ExactAligned(doc, ranges[k]);
      }
    }
  }

  lemma MergedInside(doc: seq<Byte>, lines: bool, merged: seq<Planned>)
    requires forall k :: 0 <= k < |merged| ==> WholeLines(doc, lines)(merged[k])
    ensures forall k :: 0 <= k < |merged| ==> InDocument(|doc|, merged[k]) && (lines ==> merged[k].read.FullLines? && Aligned(doc, merged[k]))
  {
  }

  lemma RegionsOnLines(doc: seq<Byte>, lines: bool, merged: seq<Planned>, regions: seq<Region>)
    requires |regions| == |merged| && forall k :: 0 <= k < |merged| ==> RegionOf(regions[k], merged[k])
    requires lines ==> forall k :: 0 <= k < |merged| ==> merged[k].read.FullLines? && Aligned(doc, merged[k])
    ensures lines ==> forall k :: 0 <= k < |regions| ==> OnLines(doc, regions[k])
  {
    hide StartsLine;
  }

  /** Extend the full-line ranges to whole lines. */
  method ExactRanges(doc: seq<Byte>, B: nat, counts: seq<nat>, ranges: seq<Planned>) returns (exact: seq<Planned>)
    requires B >= 1 && CountsOk(doc, B, counts) && forall k :: 0 <= k < |ranges| ==> InDocument(|doc|, ranges[k])
    ensures |exact| == |ranges| && forall k :: 0 <= k < |ranges| ==> exact[k] == Exact(doc, ranges[k])
    ensures forall m :: m in exact ==> InDocument(|doc|, m)
  {
    exact := [];
    hide CountsOk, Newlines, BackLines, ForwardLines;
    for k := 0 to |ranges|
      invariant |exact| == k && forall i :: 0 <= i < k ==> exact[i] == Exact(doc, ranges[i]) && InDocument(|doc|, exact[i])
    {
      match ranges[k].read
      case Regional =>
        exact := exact + [ranges[k]];
      case FullLines(before, after) =>
        var start := ExtendStart(doc, B, counts, ranges[k].start, before);
        var end := ExtendEnd(doc, B, counts, ranges[k].end, after);
        exact := exact + [Planned(start, end, ranges[k].read)];
    }
  }

  method ReadRegions(doc: seq<Byte>, B: nat, counts: seq<nat>, merged: seq<Planned>) returns (regions: seq<Region>)
    requires B >= 1 && CountsOk(doc, B, counts) && forall k :: 0 <= k < |merged| ==> InDocument(|doc|, merged[k])
    ensures |regions| == |merged| && forall k :: 0 <= k < |merged| ==> Fetched(doc, regions[k]) && RegionOf(regions[k], merged[k])
  {
    regions := [];
    hide CountsOk, LineNumber, IsLineStart;
    for k := 0 to |merged|
      invariant |regions| == k && forall i :: 0 <= i < k ==> Fetched(doc, regions[i]) && RegionOf(regions[i], merged[i])
    {
      var m := merged[k];
      var located := LocateLine(doc, B, counts, m.start);
      var (line, lineOffset) := located.value;
      regions := regions + [Region(m.start, line, lineOffset, doc[m.start..m.end], m.read.FullLines?)];
    }
  }

  predicate RegionOf(region: Region, m: Planned) {
    region.start == m.start && region.start + |region.bytes| == m.end && region.fullProgram == m.read.FullLines?
  }

  /** From a request to the region that serves it, through both merges and the line extension. */
  lemma RequestServed(doc: seq<Byte>, q: PackRange, ranges: seq<Planned>, exact: seq<Planned>, merged: seq<Planned>, regions: seq<Region>)
    requires Valid(q, |doc|) && Held(ranges, Plan(q, |doc|))
    requires forall k :: 0 <= k < |ranges| ==> InDocument(|doc|, ranges[k])
    requires |exact| == |ranges| && forall k :: 0 <= k < |ranges| ==> exact[k] == Exact(doc, ranges[k])
    requires forall m :: m in exact ==> Held(merged, m)
    requires |regions| == |merged| && forall k :: 0 <= k < |merged| ==> RegionOf(regions[k], merged[k])
    ensures Served(doc, q, regions)
  {
    hide Held, BackLines, LinesAfter;
    var want := Plan(q, |doc|);
    var i := HolderOf(ranges, want);
    ExactHolds(doc, ranges[i], want);
    assert exact[i] in exact;
    var k := HolderOf(merged, exact[i]);
    assert RegionOf(regions[k], merged[k]);
    assert RegionHolds(regions[k], Exact(doc, want).start, Exact(doc, want).end);
    if q.RegionalRange? {
      forall a: nat, b: nat | a <= b <= |doc| && b - a <= q.span && a < q.end && q.start < b ensures AnyHolds(regions, a, b) {
        assert RegionHolds(regions[k], a, b);
      }
    }
  }

  lemma HolderOf(merged: seq<Planned>, r: Planned) returns (k: nat)
    requires Held(merged, r)
    ensures k < |merged| && Holds(merged[k], r)
  {
    k :| 0 <= k < |merged| && Holds(merged[k], r);
  }
}
