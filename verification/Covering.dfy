/**
 The query side of sparse n-grams: a monotone stack picks a few grams of a literal
 (`sparse_grams_covering_bytes` in crates/core/src/grams.rs).
 */
module Covering {
  import opened Wrappers
  import opened Sorting
  import opened Grams

  /** The loop state: the stack of open start pairs and the ranges pushed so far. */
  datatype Scan = Scan(stack: seq<nat>, out: seq<Range>)

  function Top(stack: seq<nat>): nat
    requires stack != []
  {
    stack[|stack| - 1]
  }

  function Pop(stack: seq<nat>): seq<nat>
    requires stack != []
  {
    stack[..|stack| - 1]
  }

  /** Start pairs on the stack ascend, all below `bound`. */
  ghost predicate Below(stack: seq<nat>, bound: nat) {
    && (forall m :: 0 <= m < |stack| ==> stack[m] < bound)
    && (forall m, n :: 0 <= m < n < |stack| ==> stack[m] < stack[n])
  }

  /** The closure `push`: every emission is filtered through `is_indexed_gram`. */
  function Emit(ws: seq<nat>, out: seq<Range>, a: nat, end: nat): seq<Range>
    requires a + 2 <= end <= |ws| + 1
  {
    if IsIndexed(ws, a, end) then out + [Range(a, end)] else out
  }

  /** The inner loop at pair `i`: pop every start whose weight does not exceed `ws[i]`. */
  function PopSmaller(ws: seq<nat>, s: Scan, i: nat): (r: Scan)
    requires i < |ws| && Below(s.stack, i)
    ensures Below(r.stack, i)
    decreases |s.stack|
  {
    if s.stack == [] || ws[Top(s.stack)] > ws[i] then s
    else
      var next := Scan(Pop(s.stack), Emit(ws, s.out, Top(s.stack), i + 2));
      if ws[Top(s.stack)] == ws[i] then next else PopSmaller(ws, next, i)
  }

  function ScanTo(ws: seq<nat>, i: nat): (r: Scan)
    requires i <= |ws|
    ensures Below(r.stack, i)
  {
    if i == 0 then Scan([], [])
    else
      var s := PopSmaller(ws, ScanTo(ws, i - 1), i - 1);
      Scan(s.stack + [i - 1], s.out)
  }

  /** The final loop: grams between neighbours left on the stack, then the bottom pair. */
  function Drain(ws: seq<nat>, s: Scan): seq<Range>
    requires Below(s.stack, |ws|)
    decreases |s.stack|
  {
    if s.stack == [] then s.out
    else if |s.stack| == 1 then Emit(ws, s.out, s.stack[0], s.stack[0] + 2)
    else Drain(ws, Scan(Pop(s.stack), Emit(ws, s.out, s.stack[|s.stack| - 2], Top(s.stack) + 2)))
  }

  // ---------------------------------------------------------------------------------------------
  // What the scan maintains

  /** Some emitted gram contains pair `k`. */
  ghost predicate Covered(out: seq<Range>, k: nat) {
    exists r :: r in out && r.start <= k && k + 2 <= r.end
  }

  ghost predicate AllIndexed(ws: seq<nat>, out: seq<Range>) {
    forall r :: r in out ==> IndexedRange(ws, r)
  }

  /** A start on the stack outweighs everything after it. */
  ghost predicate Peaks(ws: seq<nat>, i: nat, stack: seq<nat>)
    requires i <= |ws|
  {
    && Below(stack, i)
    && (forall m, k :: 0 <= m < |stack| && stack[m] < k < i ==> ws[k] < ws[stack[m]])
  }

  /** Pairs popped so far are covered, unless their weight is zero. */
  ghost predicate PoppedCovered(ws: seq<nat>, i: nat, s: Scan)
    requires i <= |ws|
  {
    forall k :: 0 <= k < i && k !in s.stack && ws[k] > 0 ==> Covered(s.out, k)
  }

  /** Pairs in `(lo, q)` are no heavier than `q`, and a tie means `q` is already covered. */
  ghost predicate Gap(ws: seq<nat>, lo: int, q: nat, out: seq<Range>)
    requires q < |ws|
  {
    forall k :: lo < k < q && 0 <= k ==> ws[k] <= ws[q] && (ws[k] == ws[q] > 0 ==> Covered(out, q))
  }

  /** The pair just below position `m` of the stack, or -1 at the bottom. */
  ghost function Under(stack: seq<nat>, m: nat): int
    requires m <= |stack|
  {
    if m == 0 then -1 else stack[m - 1]
  }

  ghost predicate Gaps(ws: seq<nat>, s: Scan)
    requires Below(s.stack, |ws|)
  {
    forall m :: 0 <= m < |s.stack| ==> Gap(ws, Under(s.stack, m), s.stack[m], s.out)
  }

  ghost predicate ScanInv(ws: seq<nat>, i: nat, s: Scan)
    requires i <= |ws|
  {
    Peaks(ws, i, s.stack) && PoppedCovered(ws, i, s) && Gaps(ws, s) && AllIndexed(ws, s.out)
  }

  /** A peak followed by something at least as heavy as all between is an indexed gram. */
  lemma PeakIsIndexed(ws: seq<nat>, a: nat, last: nat)
    requires a < last < |ws| && 0 < ws[a] && 0 < ws[last]
    requires forall k :: a < k < last ==> ws[k] < ws[a] && ws[k] < ws[last]
    ensures IndexedRange(ws, Range(a, last + 2))
  {
    MaxInIsMax(ws, a + 1, last);
    if a + 1 >= last {
      MaxInGrows(ws, a + 1, last - 1);
    }
    IndexedHere(ws, a, last);
  }

  lemma EmitKeeps(ws: seq<nat>, out: seq<Range>, a: nat, end: nat)
    requires a + 2 <= end <= |ws| + 1
    ensures forall k: nat :: Covered(out, k) ==> Covered(Emit(ws, out, a, end), k)
    ensures AllIndexed(ws, out) ==> AllIndexed(ws, Emit(ws, out, a, end))
    ensures IndexedRange(ws, Range(a, end)) ==>
              forall k: nat :: a <= k && k + 2 <= end ==> Covered(Emit(ws, out, a, end), k)
  {
    var out' := Emit(ws, out, a, end);
    forall k: nat | Covered(out, k) ensures Covered(out', k) {
      var r :| r in out && r.start <= k && k + 2 <= r.end;
      assert r in out';
    }
    if IndexedRange(ws, Range(a, end)) {
      assert Range(a, end) in out';
    }
  }

  lemma PeakTop(ws: seq<nat>, i: nat, stack: seq<nat>)
    requires i <= |ws| && Peaks(ws, i, stack) && stack != []
    ensures forall k :: Top(stack) < k < i ==> ws[k] < ws[Top(stack)]
  {
  }

  lemma GapGrows(ws: seq<nat>, lo: int, q: nat, out: seq<Range>, out': seq<Range>)
    requires q < |ws| && Gap(ws, lo, q, out)
    requires forall k: nat :: Covered(out, k) ==> Covered(out', k)
    ensures Gap(ws, lo, q, out')
  {
  }

  /** Popping `top` merges the gap below it into the gap below `i`. */
  lemma GapMerges(ws: seq<nat>, lo: int, top: nat, i: nat, out: seq<Range>)
    requires top < i < |ws| && ws[top] <= ws[i]
    requires Gap(ws, lo, top, out) && Gap(ws, top, i, out)
    requires ws[top] == ws[i] > 0 ==> Covered(out, i)
    ensures Gap(ws, lo, i, out)
  {
  }

  lemma PopKeepsPeaks(ws: seq<nat>, i: nat, stack: seq<nat>)
    requires i <= |ws| && Peaks(ws, i, stack) && stack != []
    ensures Peaks(ws, i, Pop(stack))
    ensures Pop(stack) != [] ==> ws[Top(Pop(stack))] > ws[Top(stack)]
  {
  }

  /** The emission for a popped start covers it, and covers `i` on a tie. */
  lemma PopEmits(ws: seq<nat>, stack: seq<nat>, out: seq<Range>, i: nat)
    requires i < |ws| && Peaks(ws, i, stack) && stack != [] && ws[Top(stack)] <= ws[i]
    ensures forall k: nat :: Covered(out, k) ==> Covered(Emit(ws, out, Top(stack), i + 2), k)
    ensures AllIndexed(ws, out) ==> AllIndexed(ws, Emit(ws, out, Top(stack), i + 2))
    ensures ws[Top(stack)] > 0 ==> Covered(Emit(ws, out, Top(stack), i + 2), i)
    ensures ws[Top(stack)] > 0 ==> Covered(Emit(ws, out, Top(stack), i + 2), Top(stack))
  {
    EmitKeeps(ws, out, Top(stack), i + 2);
    PeakTop(ws, i, stack);
    if ws[Top(stack)] > 0 {
      PeakIsIndexed(ws, Top(stack), i);
    }
  }

  lemma PopKeepsCovered(ws: seq<nat>, i: nat, s: Scan, out: seq<Range>)
    requires i <= |ws| && s.stack != [] && PoppedCovered(ws, i, s)
    requires forall k: nat :: Covered(s.out, k) ==> Covered(out, k)
    requires Top(s.stack) < |ws| && (ws[Top(s.stack)] > 0 ==> Covered(out, Top(s.stack)))
    ensures PoppedCovered(ws, i, Scan(Pop(s.stack), out))
  {
    hide Covered;
    assert s.stack == Pop(s.stack) + [Top(s.stack)];
  }

  lemma PopKeepsGaps(ws: seq<nat>, s: Scan, out: seq<Range>)
    requires Below(s.stack, |ws|) && s.stack != [] && Gaps(ws, s)
    requires forall k: nat :: Covered(s.out, k) ==> Covered(out, k)
    ensures Gaps(ws, Scan(Pop(s.stack), out))
    ensures Gap(ws, Under(Pop(s.stack), |s.stack| - 1), Top(s.stack), out)
  {
    hide Covered, Gap;
    forall m | 0 <= m < |s.stack| ensures Gap(ws, Under(s.stack, m), s.stack[m], out) {
      GapGrows(ws, Under(s.stack, m), s.stack[m], s.out, out);
    }
    forall m | 0 <= m < |s.stack| ensures Under(Pop(s.stack), m) == Under(s.stack, m) {
    }
  }

  /** One pop keeps the invariant, and keeps the gap below `i` ready for the push. */
  lemma PopKeeps(ws: seq<nat>, s: Scan, i: nat)
    requires i < |ws| && ScanInv(ws, i, s) && s.stack != []
    requires Gap(ws, Top(s.stack), i, s.out) && ws[Top(s.stack)] <= ws[i]
    ensures var t := Scan(Pop(s.stack), Emit(ws, s.out, Top(s.stack), i + 2));
            && ScanInv(ws, i, t)
            && Gap(ws, Under(t.stack, |t.stack|), i, t.out)
            && (t.stack != [] ==> ws[Top(t.stack)] > ws[Top(s.stack)])
  {
    hide Covered, Gap, Gaps, PoppedCovered, AllIndexed, Emit;
    var t := Scan(Pop(s.stack), Emit(ws, s.out, Top(s.stack), i + 2));
    PopKeepsPeaks(ws, i, s.stack);
    PopEmits(ws, s.stack, s.out, i);
    PopKeepsCovered(ws, i, s, t.out);
    PopKeepsGaps(ws, s, t.out);
    GapGrows(ws, Top(s.stack), i, s.out, t.out);
    GapMerges(ws, Under(t.stack, |t.stack|), Top(s.stack), i, t.out);
  }

  /** What the inner loop leaves for the push of pair `i`. */
  ghost predicate ReadyToPush(ws: seq<nat>, i: nat, s: Scan)
    requires i < |ws|
  {
    && ScanInv(ws, i, s)
    && Gap(ws, Under(s.stack, |s.stack|), i, s.out)
    && (s.stack != [] ==> ws[Top(s.stack)] > ws[i])
  }

  lemma {:induction false} PopSmallerReady(ws: seq<nat>, s: Scan, i: nat)
    requires i < |ws| && ScanInv(ws, i, s)
    requires Gap(ws, Under(s.stack, |s.stack|), i, s.out)
    ensures ReadyToPush(ws, i, PopSmaller(ws, s, i))
    decreases |s.stack|
  {
    hide PoppedCovered, Gaps, AllIndexed, Gap, Emit;
    if s.stack != [] && ws[Top(s.stack)] <= ws[i] {
      PopKeeps(ws, s, i);
      if ws[Top(s.stack)] < ws[i] {
        PopSmallerReady(ws, Scan(Pop(s.stack), Emit(ws, s.out, Top(s.stack), i + 2)), i);
      }
    }
  }

  lemma PushKeepsPeaks(ws: seq<nat>, i: nat, stack: seq<nat>)
    requires i < |ws| && Peaks(ws, i, stack) && (stack != [] ==> ws[Top(stack)] > ws[i])
    ensures Peaks(ws, i + 1, stack + [i])
  {
    var t := stack + [i];
    forall m, k | 0 <= m < |t| && t[m] < k < i + 1 ensures ws[k] < ws[t[m]] {
      if k == i && m < |stack| - 1 {
        assert ws[stack[|stack| - 1]] < ws[stack[m]];
      }
    }
  }

  lemma PushKeepsCovered(ws: seq<nat>, i: nat, s: Scan)
    requires i < |ws| && PoppedCovered(ws, i, s)
    ensures PoppedCovered(ws, i + 1, Scan(s.stack + [i], s.out))
  {
    hide Covered;
  }

  lemma PushKeepsGaps(ws: seq<nat>, i: nat, s: Scan)
    requires i < |ws| && Below(s.stack, i) && Gaps(ws, s) && Gap(ws, Under(s.stack, |s.stack|), i, s.out)
    ensures Gaps(ws, Scan(s.stack + [i], s.out))
  {
    hide Gap;
    var t := s.stack + [i];
    forall m | 0 <= m < |t| ensures Gap(ws, Under(t, m), t[m], s.out) {
      assert Under(t, m) == Under(s.stack, m);
    }
  }

  lemma PushKeeps(ws: seq<nat>, s: Scan, i: nat)
    requires i < |ws| && ReadyToPush(ws, i, s)
    ensures ScanInv(ws, i + 1, Scan(s.stack + [i], s.out))
  {
    hide PoppedCovered, Gaps, AllIndexed, Gap;
    PushKeepsPeaks(ws, i, s.stack);
    PushKeepsCovered(ws, i, s);
    PushKeepsGaps(ws, i, s);
  }

  lemma EmptyScan(ws: seq<nat>)
    ensures ScanInv(ws, 0, Scan([], []))
  {
  }

  lemma EmptyGap(ws: seq<nat>, lo: int, q: nat, out: seq<Range>)
    requires q < |ws| && lo == q - 1
    ensures Gap(ws, lo, q, out)
  {
  }

  lemma {:induction false} ScanKeepsInv(ws: seq<nat>, i: nat)
    requires i <= |ws|
    ensures ScanInv(ws, i, ScanTo(ws, i))
    ensures i > 0 ==> ScanTo(ws, i).stack != [] && Top(ScanTo(ws, i).stack) == i - 1
  {
    hide PoppedCovered, Gaps, AllIndexed, PopSmaller, Gap;
    if i == 0 {
      EmptyScan(ws);
    } else {
      ScanKeepsInv(ws, i - 1);
      var before := ScanTo(ws, i - 1);
      assert Under(before.stack, |before.stack|) == i - 2;
      EmptyGap(ws, i - 2, i - 1, before.out);
      PopSmallerReady(ws, before, i - 1);
      PushKeeps(ws, PopSmaller(ws, before, i - 1), i - 1);
    }
  }

  // ---------------------------------------------------------------------------------------------
  // The final loop covers what is left on the stack

  /** Every pair with a positive weight is covered. */
  ghost predicate CoversPositive(ws: seq<nat>, out: seq<Range>) {
    forall k :: 0 <= k < |ws| && ws[k] > 0 ==> Covered(out, k)
  }

  lemma BelowUntiedTop(ws: seq<nat>, stack: seq<nat>, out: seq<Range>)
    requires Peaks(ws, |ws|, stack) && |stack| >= 2
    requires Gap(ws, stack[|stack| - 2], Top(stack), out)
    requires ws[Top(stack)] > 0 && !Covered(out, Top(stack))
    ensures var a, top := stack[|stack| - 2], Top(stack);
            ws[a] > ws[top] && forall k :: a < k < top ==> ws[k] < ws[a] && ws[k] < ws[top]
  {
    hide Covered;
  }

  /**
   The gram between two stack neighbours covers the upper one: either it is indexed, or a tie
   filtered it out and the upper pair was already covered when its equal was popped.
   */
  lemma NeighbourCovers(ws: seq<nat>, s: Scan)
    requires ScanInv(ws, |ws|, s) && |s.stack| >= 2
    ensures var a, top := s.stack[|s.stack| - 2], Top(s.stack);
            ws[top] > 0 ==> Covered(Emit(ws, s.out, a, top + 2), top)
  {
    hide Emit, PoppedCovered, Covered, IndexedRange, AllIndexed, Gap;
    var a, top := s.stack[|s.stack| - 2], Top(s.stack);
    EmitKeeps(ws, s.out, a, top + 2);
    assert Gap(ws, Under(s.stack, |s.stack| - 1), top, s.out);
    if ws[top] > 0 && !Covered(s.out, top) {
      BelowUntiedTop(ws, s.stack, s.out);
      PeakIsIndexed(ws, a, top);
    }
  }

  lemma DrainStep(ws: seq<nat>, s: Scan)
    requires ScanInv(ws, |ws|, s) && |s.stack| >= 2
    ensures ScanInv(ws, |ws|, Scan(Pop(s.stack), Emit(ws, s.out, s.stack[|s.stack| - 2], Top(s.stack) + 2)))
  {
    var t := Scan(Pop(s.stack), Emit(ws, s.out, s.stack[|s.stack| - 2], Top(s.stack) + 2));
    NeighbourCovers(ws, s);
    EmitKeeps(ws, s.out, s.stack[|s.stack| - 2], Top(s.stack) + 2);
    hide Covered, Gap, Gaps, PoppedCovered, AllIndexed, Emit, IndexedRange;
    PopKeepsPeaks(ws, |ws|, s.stack);
    PopKeepsCovered(ws, |ws|, s, t.out);
    PopKeepsGaps(ws, s, t.out);
  }

  lemma EmptyCovers(out: seq<Range>)
    ensures CoversPositive([], out)
  {
  }

  lemma BottomCovers(ws: seq<nat>, s: Scan)
    requires |s.stack| == 1 && Below(s.stack, |ws|)
    requires PoppedCovered(ws, |ws|, s) && AllIndexed(ws, s.out)
    ensures var out := Emit(ws, s.out, s.stack[0], s.stack[0] + 2);
            CoversPositive(ws, out) && AllIndexed(ws, out) && Covered(out, s.stack[0])
  {
    hide Emit, Covered, IndexedRange;
    PairIsIndexed(ws, s.stack[0]);
    EmitKeeps(ws, s.out, s.stack[0], s.stack[0] + 2);
    assert forall k :: 0 <= k < |ws| && k != s.stack[0] ==> k !in s.stack;
  }

  lemma {:induction false} DrainCovers(ws: seq<nat>, s: Scan)
    requires ScanInv(ws, |ws|, s) && (s.stack == [] ==> |ws| == 0)
    ensures CoversPositive(ws, Drain(ws, s)) && AllIndexed(ws, Drain(ws, s))
    ensures s.stack != [] ==> Covered(Drain(ws, s), s.stack[0])
    decreases |s.stack|
  {
    hide PoppedCovered, Gaps, AllIndexed, Gap, Covered, Emit, CoversPositive;
    if s.stack == [] {
      assert CoversPositive(ws, s.out) by { EmptyCovers(s.out); }
    } else if |s.stack| == 1 {
      BottomCovers(ws, s);
    } else {
      DrainStep(ws, s);
      DrainCovers(ws, Scan(Pop(s.stack), Emit(ws, s.out, s.stack[|s.stack| - 2], Top(s.stack) + 2)));
    }
  }

  // ---------------------------------------------------------------------------------------------
  // The whole query-side selection

  function CoverRanges(ws: seq<nat>): seq<Range> {
    Drain(ws, ScanTo(ws, |ws|))
  }

  function Cut(data: seq<Byte>, ranges: seq<Range>): (r: seq<Gram>)
    requires forall x :: x in ranges ==> x.start <= x.end <= |data|
    ensures forall g :: g in r <==> exists x :: x in ranges && g == data[x.start..x.end]
  {
    if ranges == [] then []
    else
      assert forall x :: x in ranges <==> x == ranges[0] || x in ranges[1..];
      [data[ranges[0].start..ranges[0].end]] + Cut(data, ranges[1..])
  }

  /** Everything selected is indexed, and every pair of positive weight is inside a selected gram. */
  lemma CoverRangesCorrect(ws: seq<nat>)
    ensures AllIndexed(ws, CoverRanges(ws)) && CoversPositive(ws, CoverRanges(ws))
  {
    hide ScanInv, CoversPositive, AllIndexed;
    ScanKeepsInv(ws, |ws|);
    DrainCovers(ws, ScanTo(ws, |ws|));
  }

  function SparseQueryGrams(lit: seq<Byte>, w: PairWeight): seq<Gram> {
    if |lit| < 2 then []
    else
      CoverRangesCorrect(Weights(lit, w));
      SortDedup(LexLess, Cut(lit, CoverRanges(Weights(lit, w))))
  }

  lemma SparseQueryGramsElements(lit: seq<Byte>, w: PairWeight, g: Gram)
    ensures g in SparseQueryGrams(lit, w) <==>
              |lit| >= 2 && exists r :: r in CoverRanges(Weights(lit, w)) && IndexedRange(Weights(lit, w), r)
                                        && g == lit[r.start..r.end]
  {
    if |lit| >= 2 {
      CoverRangesCorrect(Weights(lit, w));
      hide CoverRanges, CoversPositive, IsIndexed;
      LexTotal();
      SortDedupCorrect(LexLess, Cut(lit, CoverRanges(Weights(lit, w))));
    }
  }

  lemma CoverRangesFit(ws: seq<nat>)
    ensures forall r :: r in CoverRanges(ws) ==> r.start <= r.end <= |ws| + 1
  {
    CoverRangesCorrect(ws);
  }

  /** The inner `while` of the scan, at pair `i`. */
  method PopNotHeavier(ws: seq<nat>, s: Scan, i: nat) returns (r: Scan)
    requires i < |ws| && Below(s.stack, i)
    ensures r == PopSmaller(ws, s, i)
  {
    hide Emit;
    var stack, ranges := s.stack, s.out;
    while stack != [] && ws[Top(stack)] <= ws[i]
      invariant Below(stack, i)
      invariant PopSmaller(ws, Scan(stack, ranges), i) == PopSmaller(ws, s, i)
      decreases |stack|
    {
      var top := Top(stack);
      ranges := Emit(ws, ranges, top, i + 2);
      stack := Pop(stack);
      if ws[top] == ws[i] {
        return Scan(stack, ranges);
      }
    }
    return Scan(stack, ranges);
  }

  /** The loop that empties the stack, and the bottom pair's own gram. */
  method DrainStack(ws: seq<nat>, s: Scan) returns (ranges: seq<Range>)
    requires Below(s.stack, |ws|)
    ensures ranges == Drain(ws, s)
  {
    hide Emit;
    var stack := s.stack;
    ranges := s.out;
    while |stack| > 1
      invariant Below(stack, |ws|) && Drain(ws, Scan(stack, ranges)) == Drain(ws, s)
      decreases |stack|
    {
      var top := Top(stack);
      stack := Pop(stack);
      ranges := Emit(ws, ranges, Top(stack), top + 2);
    }
    if stack != [] {
      ranges := Emit(ws, ranges, Top(stack), Top(stack) + 2);
    }
  }

  /** `sparse_grams_covering_bytes`, as the program runs it. */
  method SparseGramsCovering(data: seq<Byte>, w: PairWeight) returns (out: seq<Gram>)
    ensures out == SparseQueryGrams(data, w)
  {
    if |data| < 2 {
      return [];
    }
    var ws := Weights(data, w);
    hide Weights, Drain, PopSmaller, SortDedup;
    var s := Scan([], []);
    var i := 0;
    while i < |ws|
      invariant 0 <= i <= |ws| && s == ScanTo(ws, i)
    {
      s := PopNotHeavier(ws, s, i);
      s := Scan(s.stack + [i], s.out);
      i := i + 1;
    }
    var ranges := DrainStack(ws, s);
    CoverRangesFit(ws);
    out := SortDedup(LexLess, Cut(data, ranges));
  }

  /**
   A zero weight can leave a gap: with weights [0, 5] the only emission for the first pair is
   filtered out, so the first byte lies in no selected gram.
   */
  lemma ZeroWeightLeavesAGap()
    ensures !Covered(CoverRanges([0, 5]), 0)
  {
    var ws: seq<nat> := [0, 5];
    assert ScanTo(ws, 1) == Scan([0], []);
    assert MaxIn(ws, 1, 1) == 0;
    assert PopSmaller(ws, Scan([0], []), 1) == Scan([], []);
    assert ScanTo(ws, 2) == Scan([1], []);
    assert CoverRanges(ws) == [Range(1, 3)];
  }
}
