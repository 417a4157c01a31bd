/**
 Exactly which grams `sparse_grams_covering_bytes` selects (crates/core/src/grams.rs), without the
 stack, and exactly when they cover every byte of the literal.
 */
module CoverExact {
  import opened Wrappers
  import opened Grams
  import opened Covering

  // ---------------------------------------------------------------------------------------------
  // The selected ranges in closed form

  /** Pair `a` outweighs everything after it and before `n`. */
  ghost predicate Open(ws: seq<nat>, n: nat, a: nat)
    requires n <= |ws|
  {
    a < n && forall k :: a < k < n ==> ws[k] < ws[a]
  }

  /** Pair `i` is the first after `a` that is no lighter. */
  ghost predicate Closes(ws: seq<nat>, a: nat, i: nat) {
    i < |ws| && Open(ws, i, a) && ws[a] <= ws[i]
  }

  /** `a` and `q` are neighbours among the pairs that outweigh everything after them. */
  ghost predicate Neighbours(ws: seq<nat>, a: nat, q: nat) {
    a < q && Open(ws, |ws|, a) && Open(ws, |ws|, q) && forall k :: a < k < q ==> ws[k] <= ws[q]
  }

  /** The last heaviest pair. */
  ghost predicate Bottom(ws: seq<nat>, q: nat) {
    Open(ws, |ws|, q) && forall k :: 0 <= k < q ==> ws[k] <= ws[q]
  }

  ghost predicate Chosen(ws: seq<nat>, r: Range) {
    && r.start + 2 <= r.end && IndexedRange(ws, r)
    && (Closes(ws, r.start, r.end - 2) || Neighbours(ws, r.start, r.end - 2) || (r.end == r.start + 2 && Bottom(ws, r.start)))
  }

  lemma IndexedIff(ws: seq<nat>, a: nat, last: nat)
    requires a < last < |ws|
    ensures IndexedRange(ws, Range(a, last + 2)) <==>
              ws[a] > 0 && ws[last] > 0 && forall k :: a < k < last ==> ws[k] < ws[a] && ws[k] < ws[last]
  {
    IndexedHere(ws, a, last);
    MaxInIsMax(ws, a + 1, last);
    if ws[a] > 0 && ws[last] > 0 && forall k :: a < k < last ==> ws[k] < ws[a] && ws[k] < ws[last] {
      PeakIsIndexed(ws, a, last);
    }
  }

  // ---------------------------------------------------------------------------------------------
  // The scan

  /** The stack holds exactly the open pairs. */
  ghost predicate StackIs(ws: seq<nat>, i: nat, stack: seq<nat>)
    requires i <= |ws|
  {
    Below(stack, i) && forall a: nat :: a in stack <==> Open(ws, i, a)
  }

  /** The range was pushed before pair `i`. */
  ghost predicate ClosedBefore(ws: seq<nat>, i: nat, r: Range) {
    r.start + 2 <= r.end && r.end - 2 < i && IndexedRange(ws, r) && Closes(ws, r.start, r.end - 2)
  }

  ghost predicate OutIs(ws: seq<nat>, i: nat, out: seq<Range>) {
    forall r :: r in out <==> ClosedBefore(ws, i, r)
  }

  /** In the middle of the inner loop at pair `i`: what is gone from the stack was closed by `i`. */
  ghost predicate Popping(ws: seq<nat>, i: nat, s: Scan)
    requires i < |ws|
  {
    && Below(s.stack, i)
    && (forall a: nat :: a in s.stack ==> Open(ws, i, a))
    && (forall a: nat :: Open(ws, i, a) && a !in s.stack ==> ws[a] <= ws[i])
    && (forall r :: r in s.out <==> ClosedBefore(ws, i, r) || PoppedHere(ws, i, s.stack, r))
  }

  ghost predicate PoppedHere(ws: seq<nat>, i: nat, stack: seq<nat>, r: Range) {
    r.end == i + 2 && r.start !in stack && IndexedRange(ws, r) && Closes(ws, r.start, i)
  }

  lemma StartPopping(ws: seq<nat>, i: nat, s: Scan)
    requires i < |ws| && StackIs(ws, i, s.stack) && OutIs(ws, i, s.out)
    ensures Popping(ws, i, s)
  {
    hide IndexedRange;
  }

  lemma InPop(stack: seq<nat>, i: nat)
    requires stack != [] && Below(stack, i)
    ensures forall a: nat :: a in Pop(stack) <==> a in stack && a != Top(stack)
    ensures forall a: nat :: a in Pop(stack) ==> a < Top(stack)
    ensures Top(stack) in stack && Below(Pop(stack), i)
  {
    assert stack == Pop(stack) + [Top(stack)];
  }

  lemma InEmit(ws: seq<nat>, out: seq<Range>, a: nat, end: nat, r: Range)
    requires a + 2 <= end <= |ws| + 1
    ensures r in Emit(ws, out, a, end) <==> r in out || (r == Range(a, end) && IndexedRange(ws, r))
  {
  }

  lemma PopStep(ws: seq<nat>, i: nat, s: Scan)
    requires i < |ws| && Popping(ws, i, s) && s.stack != [] && ws[Top(s.stack)] <= ws[i]
    ensures Popping(ws, i, Scan(Pop(s.stack), Emit(ws, s.out, Top(s.stack), i + 2)))
  {
    var top := Top(s.stack);
    InPop(s.stack, i);
    hide IndexedRange, Emit, Below;
    var t := Scan(Pop(s.stack), Emit(ws, s.out, top, i + 2));
    forall r ensures r in t.out <==> ClosedBefore(ws, i, r) || PoppedHere(ws, i, t.stack, r) {
      InEmit(ws, s.out, top, i + 2, r);
    }
  }

  /** After the inner loop, everything left outweighs pair `i`. */
  ghost predicate Popped(ws: seq<nat>, i: nat, s: Scan)
    requires i < |ws|
  {
    Popping(ws, i, s) && forall a: nat :: a in s.stack ==> ws[a] > ws[i]
  }

  /** Everything under the top outweighs it. */
  lemma UnderTop(ws: seq<nat>, i: nat, s: Scan, a: nat)
    requires i < |ws| && Popping(ws, i, s) && s.stack != [] && a in s.stack
    ensures a == Top(s.stack) || ws[a] > ws[Top(s.stack)]
  {
    InPop(s.stack, i);
  }

  lemma {:induction false} PopSmallerPops(ws: seq<nat>, s: Scan, i: nat)
    requires i < |ws| && Popping(ws, i, s)
    ensures Popped(ws, i, PopSmaller(ws, s, i))
    decreases |s.stack|
  {
    hide Popping, Emit;
    assert Below(s.stack, i) by { PoppingBelow(ws, i, s); }
    if s.stack == [] {
    } else {
      forall a: nat | a in s.stack ensures a == Top(s.stack) || ws[a] > ws[Top(s.stack)] {
        UnderTop(ws, i, s, a);
      }
      if ws[Top(s.stack)] <= ws[i] {
        PopStep(ws, i, s);
        InPop(s.stack, i);
        if ws[Top(s.stack)] < ws[i] {
          PopSmallerPops(ws, Scan(Pop(s.stack), Emit(ws, s.out, Top(s.stack), i + 2)), i);
        }
      }
    }
  }

  lemma PoppingBelow(ws: seq<nat>, i: nat, s: Scan)
    requires i < |ws| && Popping(ws, i, s)
    ensures Below(s.stack, i)
  {
  }

  lemma PushStack(ws: seq<nat>, i: nat, s: Scan)
    requires i < |ws| && Popped(ws, i, s)
    ensures StackIs(ws, i + 1, s.stack + [i])
  {
    hide ClosedBefore, PoppedHere;
  }

  lemma PushOut(ws: seq<nat>, i: nat, s: Scan)
    requires i < |ws| && Popped(ws, i, s)
    ensures OutIs(ws, i + 1, s.out)
  {
    hide IndexedRange, Below;
    forall r ensures r in s.out <==> ClosedBefore(ws, i + 1, r) {
    }
  }

  lemma {:induction false} ScanIs(ws: seq<nat>, i: nat)
    requires i <= |ws|
    ensures StackIs(ws, i, ScanTo(ws, i).stack) && OutIs(ws, i, ScanTo(ws, i).out)
  {
    hide StackIs, OutIs, PopSmaller, Popped, Popping;
    if i == 0 {
      NothingScanned(ws);
    } else {
      ScanIs(ws, i - 1);
      var before := ScanTo(ws, i - 1);
      StartPopping(ws, i - 1, before);
      PopSmallerPops(ws, before, i - 1);
      PushStack(ws, i - 1, PopSmaller(ws, before, i - 1));
      PushOut(ws, i - 1, PopSmaller(ws, before, i - 1));
    }
  }

  lemma NothingScanned(ws: seq<nat>)
    ensures StackIs(ws, 0, []) && OutIs(ws, 0, [])
  {
  }

  // ---------------------------------------------------------------------------------------------
  // The final loop

  /** Some open pair at or after `k` is no lighter. */
  lemma {:induction false} OpenAbove(ws: seq<nat>, k: nat) returns (m: nat)
    requires k < |ws|
    ensures k <= m && Open(ws, |ws|, m) && ws[m] >= ws[k]
    decreases |ws| - k
  {
    if Open(ws, |ws|, k) {
      m := k;
    } else {
      var j :| k < j < |ws| && ws[j] >= ws[k];
      m := OpenAbove(ws, j);
    }
  }

  /** The stack from some point of the final loop: every open pair up to its top. */
  ghost predicate Draining(ws: seq<nat>, stack: seq<nat>) {
    && Below(stack, |ws|) && (forall a: nat :: a in stack ==> Open(ws, |ws|, a))
    && (stack != [] ==> forall a: nat :: Open(ws, |ws|, a) && a <= Top(stack) ==> a in stack)
  }

  lemma NeighbourBelow(ws: seq<nat>, stack: seq<nat>, a: nat)
    requires Draining(ws, stack) && |stack| >= 2
    ensures Neighbours(ws, a, Top(stack)) <==> a == stack[|stack| - 2]
  {
    var q, p := Top(stack), stack[|stack| - 2];
    assert p in stack && q in stack && p < q;
    if a == p {
      forall k | p < k < q ensures ws[k] <= ws[q] {
        var m := OpenAbove(ws, k);
        if m < q {
          InStackBetween(ws, stack, m);
          assert false;
        }
      }
    } else if Neighbours(ws, a, q) {
      InStackBetween(ws, stack, a);
      assert false;
    }
  }

  lemma InStackBetween(ws: seq<nat>, stack: seq<nat>, m: nat)
    requires Draining(ws, stack) && |stack| >= 2 && Open(ws, |ws|, m) && m < Top(stack)
    ensures m <= stack[|stack| - 2]
  {
    assert m in stack;
    var j :| 0 <= j < |stack| && stack[j] == m;
  }

  lemma BottomIs(ws: seq<nat>, stack: seq<nat>, q: nat)
    requires Draining(ws, stack) && stack != []
    ensures Bottom(ws, q) <==> q == stack[0]
  {
    assert stack[0] in stack;
    FirstIsOpen(ws, stack);
    hide Draining;
    if q == stack[0] {
      forall k | 0 <= k < q ensures ws[k] <= ws[q] {
        var m := OpenAbove(ws, k);
        FirstInStack(ws, stack, m);
      }
    } else if Open(ws, |ws|, q) {
      FirstInStack(ws, stack, q);
      NotBottom(ws, stack[0], q);
    }
  }

  lemma FirstIsOpen(ws: seq<nat>, stack: seq<nat>)
    requires Draining(ws, stack) && stack != []
    ensures Open(ws, |ws|, stack[0]) && stack[0] <= Top(stack)
  {
    assert stack[0] in stack;
  }

  /** Behind an open pair there is no heaviest one. */
  lemma NotBottom(ws: seq<nat>, p: nat, q: nat)
    requires Open(ws, |ws|, p) && p < q < |ws|
    ensures !Bottom(ws, q)
  {
    assert ws[q] < ws[p];
  }

  lemma FirstInStack(ws: seq<nat>, stack: seq<nat>, m: nat)
    requires Draining(ws, stack) && stack != []
    ensures Open(ws, |ws|, m) && m <= Top(stack) ==> stack[0] <= m
  {
    if Open(ws, |ws|, m) && m <= Top(stack) {
      var j :| 0 <= j < |stack| && stack[j] == m;
    }
  }

  lemma PopDraining(ws: seq<nat>, stack: seq<nat>)
    requires Draining(ws, stack) && stack != []
    ensures Draining(ws, Pop(stack))
  {
    InPop(stack, |ws|);
  }

  /** A range the final loop adds for the stack. */
  ghost predicate AddedFor(ws: seq<nat>, stack: seq<nat>, r: Range) {
    && r.start + 2 <= r.end && IndexedRange(ws, r)
    && ((r.end - 2 in stack && Neighbours(ws, r.start, r.end - 2)) || (stack != [] && r.end == r.start + 2 && Bottom(ws, r.start)))
  }

  lemma {:induction false} DrainIs(ws: seq<nat>, s: Scan, r: Range)
    requires Draining(ws, s.stack)
    ensures r in Drain(ws, s) <==> r in s.out || AddedFor(ws, s.stack, r)
    decreases |s.stack|
  {
    hide Draining, Neighbours, Bottom, IndexedRange, Emit;
    assert Below(s.stack, |ws|) by { DrainingBelow(ws, s.stack); }
    if s.stack == [] {
    } else if |s.stack| == 1 {
      InEmit(ws, s.out, s.stack[0], s.stack[0] + 2, r);
      BottomIs(ws, s.stack, r.start);
      NoNeighbour(ws, s.stack, r.start);
      BottomIs(ws, s.stack, s.stack[0]);
    } else {
      var p, top := s.stack[|s.stack| - 2], Top(s.stack);
      InEmit(ws, s.out, p, top + 2, r);
      NeighbourBelow(ws, s.stack, r.start);
      PopDraining(ws, s.stack);
      DrainIs(ws, Scan(Pop(s.stack), Emit(ws, s.out, p, top + 2)), r);
      InPop(s.stack, |ws|);
    }
  }

  lemma DrainingBelow(ws: seq<nat>, stack: seq<nat>)
    requires Draining(ws, stack)
    ensures Below(stack, |ws|)
  {
  }

  lemma NoNeighbour(ws: seq<nat>, stack: seq<nat>, a: nat)
    requires Draining(ws, stack) && |stack| == 1
    ensures !Neighbours(ws, a, stack[0])
  {
    assert Neighbours(ws, a, stack[0]) ==> a in stack;
  }

  /** The stack algorithm selects exactly the chosen ranges. */
  lemma CoverRangesAre(ws: seq<nat>, r: Range)
    ensures r in CoverRanges(ws) <==> Chosen(ws, r)
  {
    ScanIs(ws, |ws|);
    StackDrains(ws, ScanTo(ws, |ws|).stack);
    var s := ScanTo(ws, |ws|);
    hide ScanTo, Drain, IndexedRange, Below;
    DrainIs(ws, s, r);
    if Chosen(ws, r) && r.end == r.start + 2 && Bottom(ws, r.start) {
      assert r.start in s.stack;
    }
  }

  lemma StackDrains(ws: seq<nat>, stack: seq<nat>)
    requires StackIs(ws, |ws|, stack)
    ensures Draining(ws, stack)
  {
  }

  // ---------------------------------------------------------------------------------------------
  // Bytes

  /** A selected range contains byte `b` of the literal. */
  ghost predicate HasByte(ws: seq<nat>, b: nat) {
    exists r :: Chosen(ws, r) && r.start <= b < r.end
  }

  /** Byte `b` lies in a range that the algorithm selects. */
  ghost predicate ByteCovered(out: seq<Range>, b: nat) {
    exists r :: r in out && r.start <= b < r.end
  }

  lemma HasByteIs(ws: seq<nat>, b: nat)
    ensures HasByte(ws, b) <==> ByteCovered(CoverRanges(ws), b)
  {
    hide Chosen, CoverRanges;
    forall r ensures Chosen(ws, r) <==> r in CoverRanges(ws) {
      CoverRangesAre(ws, r);
    }
  }

  /** A positive pair with two weightless pairs right behind it. */
  ghost predicate Hollow(ws: seq<nat>, a: nat) {
    a + 2 < |ws| && ws[a] > 0 && ws[a + 1] == 0 && ws[a + 2] == 0
  }

  /** A later pair is no lighter. */
  ghost predicate Overtopped(ws: seq<nat>, a: nat)
    requires a < |ws|
  {
    exists k :: a < k < |ws| && ws[k] >= ws[a]
  }

  /** The largest weight after `a` occurs more than once. */
  ghost predicate TwoPeaks(ws: seq<nat>, a: nat) {
    exists j, k :: a < j < k < |ws| && ws[j] == ws[k] && forall m :: a < m < |ws| ==> ws[m] <= ws[j]
  }

  /**
   The weights of a literal whose bytes all lie in selected grams: a single pair, or positive weights at
   both ends and no hollow before a repeated largest weight that stays below the pair in front of it.
   */
  ghost predicate NoGap(ws: seq<nat>) {
    |ws| == 1 ||
    (|ws| > 1 && ws[0] > 0 && ws[|ws| - 1] > 0 && forall a: nat :: Hollow(ws, a) ==> Overtopped(ws, a) || !TwoPeaks(ws, a))
  }

  lemma FirstNoLighter(ws: seq<nat>, s: nat, e: nat) returns (i: nat)
    requires s < e < |ws| && ws[s] <= ws[e]
    ensures s < i <= e && Closes(ws, s, i)
  {
    i := s + 1;
    while ws[i] < ws[s]
      invariant s < i <= e && forall k :: s < k < i ==> ws[k] < ws[s]
      decreases e - i
    {
      i := i + 1;
    }
  }

  /** From a positive pair up to one that nothing in between outweighs, every byte is covered. */
  lemma {:induction false} ChainCovers(ws: seq<nat>, s: nat, e: nat, b: nat)
    requires s < e < |ws| && ws[s] > 0 && forall k :: s <= k < e ==> ws[k] <= ws[e]
    requires s <= b <= e + 1
    ensures HasByte(ws, b)
    decreases e - s
  {
    var i := FirstNoLighter(ws, s, e);
    IndexedIff(ws, s, i);
    if b <= i + 1 {
      assert Chosen(ws, Range(s, i + 2));
    } else {
      ChainCovers(ws, i, e, b);
    }
  }

  /** The open pair before `q`, if there is one. */
  lemma PreviousOpen(ws: seq<nat>, q: nat) returns (a: nat)
    requires Open(ws, |ws|, q) && !Bottom(ws, q)
    ensures Neighbours(ws, a, q)
  {
    var heavy :| 0 <= heavy < q && ws[heavy] > ws[q];
    var n := q;
    while ws[n - 1] <= ws[q]
      invariant heavy < n <= q && forall k :: n <= k < q ==> ws[k] <= ws[q]
      decreases n
    {
      n := n - 1;
    }
    a := n - 1;
  }

  /** The bytes between two open neighbours whose own gram is filtered out by a tie. */
  lemma TieCovers(ws: seq<nat>, a: nat, q: nat, b: nat)
    requires |ws| > 1 && NoGap(ws) && Neighbours(ws, a, q)
    requires !IndexedRange(ws, Range(a, q + 2)) && a + 2 <= b <= q + 1
    ensures HasByte(ws, b)
  {
    IndexedIff(ws, a, q);
    assert q < |ws| - 1 ==> ws[|ws| - 1] < ws[q];
    var k :| a < k < q && ws[k] == ws[q];
    TieIsTwoPeaks(ws, a, q, k);
    NoHollow(ws, a);
    if ws[a + 1] > 0 {
      ChainCovers(ws, a + 1, q, b);
    } else if ws[a + 2] > 0 {
      ChainCovers(ws, a + 2, q, b);
    }
  }

  lemma TieIsTwoPeaks(ws: seq<nat>, a: nat, q: nat, k: nat)
    requires Neighbours(ws, a, q) && a < k < q && ws[k] == ws[q]
    ensures TwoPeaks(ws, a) && !Overtopped(ws, a) && (ws[a + 1] == 0 && ws[q] > 0 ==> a + 2 <= k)
  {
    forall m | a < m < |ws| ensures ws[m] <= ws[k] {
    }
  }

  lemma NoHollow(ws: seq<nat>, a: nat)
    requires |ws| > 1 && NoGap(ws) && a < |ws| && TwoPeaks(ws, a) && !Overtopped(ws, a)
    ensures !Hollow(ws, a)
  {
  }

  lemma BottomHas(ws: seq<nat>, q: nat, b: nat)
    requires Bottom(ws, q) && (q > 0 ==> ws[0] > 0) && b <= q + 1
    ensures HasByte(ws, b)
  {
    if q == 0 {
      PairIsIndexed(ws, 0);
      assert Chosen(ws, Range(0, 2));
    } else {
      ChainCovers(ws, 0, q, b);
    }
  }

  lemma {:induction false} OpenCovers(ws: seq<nat>, q: nat, b: nat)
    requires NoGap(ws) && Open(ws, |ws|, q) && b <= q + 1
    ensures HasByte(ws, b)
    decreases q
  {
    hide IndexedRange;
    if Bottom(ws, q) {
      BottomHas(ws, q, b);
    } else {
      var a := PreviousOpen(ws, q);
      if b <= a + 1 {
        OpenCovers(ws, a, b);
      } else if IndexedRange(ws, Range(a, q + 2)) {
        assert Chosen(ws, Range(a, q + 2));
      } else {
        TieCovers(ws, a, q, b);
      }
    }
  }

  /** Outside the last heaviest pair's own gram, a chosen range starts and ends with positive weights. */
  lemma ChosenEnds(ws: seq<nat>, r: Range)
    requires Chosen(ws, r) && !(r.end == r.start + 2 && Bottom(ws, r.start))
    ensures r.start < r.end - 2 < |ws| && ws[r.start] > 0 && ws[r.end - 2] > 0
    ensures forall k :: r.start < k < r.end - 2 ==> ws[k] < ws[r.start] && ws[k] < ws[r.end - 2]
  {
    IndexedIff(ws, r.start, r.end - 2);
    assert r == Range(r.start, r.end - 2 + 2);
  }

  lemma BottomIsHeaviest(ws: seq<nat>, q: nat)
    requires Bottom(ws, q)
    ensures forall k :: 0 <= k < |ws| ==> ws[k] <= ws[q] && (k > q ==> ws[k] < ws[q])
  {
  }

  lemma FirstByteLost(ws: seq<nat>)
    requires |ws| > 1 && ws[0] == 0
    ensures !HasByte(ws, 0)
  {
    assert ws[1] >= 0;
    forall r | Chosen(ws, r) ensures r.start != 0 {
      if r.end == r.start + 2 && Bottom(ws, r.start) {
        BottomIsHeaviest(ws, r.start);
      } else {
        ChosenEnds(ws, r);
      }
    }
  }

  lemma LastByteLost(ws: seq<nat>)
    requires |ws| > 1 && ws[0] > 0 && ws[|ws| - 1] == 0
    ensures !HasByte(ws, |ws|)
  {
    forall r | Chosen(ws, r) ensures r.end <= |ws| {
      if r.end == r.start + 2 && Bottom(ws, r.start) {
        BottomIsHeaviest(ws, r.start);
      } else {
        ChosenEnds(ws, r);
      }
    }
  }

  lemma HollowByteLost(ws: seq<nat>, a: nat)
    requires Hollow(ws, a) && !Overtopped(ws, a) && TwoPeaks(ws, a)
    ensures !HasByte(ws, a + 2)
  {
    forall r | Chosen(ws, r) ensures !(r.start <= a + 2 < r.end) {
      HollowRange(ws, a, r);
    }
  }

  /** A repeated largest weight ties with the neighbour of the pair in front of it. */
  lemma PeakTies(ws: seq<nat>, a: nat, q: nat)
    ensures TwoPeaks(ws, a) && Neighbours(ws, a, q) ==> !IndexedRange(ws, Range(a, q + 2))
  {
    if TwoPeaks(ws, a) && Neighbours(ws, a, q) {
      var j, k :| a < j < k < |ws| && ws[j] == ws[k] && forall m :: a < m < |ws| ==> ws[m] <= ws[j];
      assert ws[q] == ws[j] && k <= q;
      IndexedIff(ws, a, q);
    }
  }

  lemma HollowRange(ws: seq<nat>, a: nat, r: Range)
    requires Hollow(ws, a) && !Overtopped(ws, a) && TwoPeaks(ws, a) && Chosen(ws, r)
    ensures !(r.start <= a + 2 < r.end)
  {
    PeakTies(ws, a, r.end - 2);
    if r.end == r.start + 2 && Bottom(ws, r.start) {
      BottomIsHeaviest(ws, r.start);
    } else {
      ChosenEnds(ws, r);
      hide IndexedRange, TwoPeaks;
      assert r == Range(r.start, r.end - 2 + 2);
    }
  }

  /** Every byte of a literal lies in a selected range if and only if its weights leave no gap. */
  lemma CoversIff(ws: seq<nat>)
    requires ws != []
    ensures (forall b: nat :: b <= |ws| ==> ByteCovered(CoverRanges(ws), b)) <==> NoGap(ws)
  {
    hide Chosen, CoverRanges;
    forall b: nat ensures HasByte(ws, b) <==> ByteCovered(CoverRanges(ws), b) {
      HasByteIs(ws, b);
    }
    if NoGap(ws) {
      forall b: nat | b <= |ws| ensures HasByte(ws, b) {
        OpenCovers(ws, |ws| - 1, b);
      }
    } else if ws[0] == 0 {
      FirstByteLost(ws);
    } else if ws[|ws| - 1] == 0 {
      LastByteLost(ws);
    } else {
      var a: nat :| Hollow(ws, a) && !Overtopped(ws, a) && TwoPeaks(ws, a);
      HollowByteLost(ws, a);
    }
  }
}
