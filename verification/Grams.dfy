/**
 Trigrams and sparse n-grams (crates/core/src/grams.rs).

 The index side enumerates every sparse gram of a document with a resumable state machine; the
 query side picks a few grams of a literal with a monotone stack.  The pair weight is a hash in the
 program and an arbitrary function here.
 */
module Grams {
  import opened Wrappers
  import opened Sorting

  type Gram = seq<Byte>
  type PairWeight = (Byte, Byte) -> nat

  datatype Strategy = Trigram | Sparse

  /** A half-open byte range of the text the gram is cut from. */
  datatype Range = Range(start: nat, end: nat)

  predicate LexLess(a: Gram, b: Gram) {
    if a == [] then b != []
    else if b == [] then false
    else a[0] < b[0] || (a[0] == b[0] && LexLess(a[1..], b[1..]))
  }

  lemma {:induction false} LexTrichotomy(a: Gram, b: Gram)
    ensures !LexLess(a, a)
    ensures a == b || LexLess(a, b) || LexLess(b, a)
  {
    if a != [] {
      LexTrichotomy(a[1..], if b == [] then [] else b[1..]);
      if b != [] && a[1..] == b[1..] && a[0] == b[0] {
        assert a == [a[0]] + a[1..] && b == [b[0]] + b[1..];
      }
    }
  }

  lemma {:induction false} LexTransitive(a: Gram, b: Gram, c: Gram)
    requires LexLess(a, b) && LexLess(b, c)
    ensures LexLess(a, c)
  {
    if a != [] && a[0] == b[0] && b[0] == c[0] {
      LexTransitive(a[1..], b[1..], c[1..]);
    }
  }

  lemma LexTotal()
    ensures TotalOrder(LexLess)
  {
    forall a, b ensures !LexLess(a, a) && (a == b || LexLess(a, b) || LexLess(b, a)) {
      LexTrichotomy(a, b);
    }
    forall a, b, c | LexLess(a, b) && LexLess(b, c) ensures LexLess(a, c) {
      LexTransitive(a, b, c);
    }
  }

  // ---------------------------------------------------------------------------------------------
  // Weights and the closed form of "the index emits this gram"

  function Weights(data: seq<Byte>, w: PairWeight): (ws: seq<nat>)
    ensures |ws| == if |data| < 2 then 0 else |data| - 1
    ensures forall i :: 0 <= i < |ws| ==> ws[i] == w(data[i], data[i + 1])
  {
    if |data| < 2 then [] else [w(data[0], data[1])] + Weights(data[1..], w)
  }

  /** The largest of `ws[lo..hi]`, and 0 when there is none. */
  function MaxIn(ws: seq<nat>, lo: nat, hi: nat): nat
    requires hi <= |ws|
  {
    if hi <= lo then 0
    else
      var m := MaxIn(ws, lo, hi - 1);
      if m > ws[hi - 1] then m else ws[hi - 1]
  }

  lemma {:induction false} MaxInIsMax(ws: seq<nat>, lo: nat, hi: nat)
    requires hi <= |ws|
    ensures forall k :: lo <= k < hi ==> ws[k] <= MaxIn(ws, lo, hi)
    ensures lo < hi ==> exists k :: lo <= k < hi && ws[k] == MaxIn(ws, lo, hi)
  {
    if lo < hi {
      MaxInIsMax(ws, lo, hi - 1);
      if MaxIn(ws, lo, hi) != ws[hi - 1] {
        assert lo < hi - 1;
      }
    }
  }

  lemma {:induction false} MaxInMonotone(ws: seq<nat>, lo: nat, mid: nat, hi: nat)
    requires mid <= hi <= |ws|
    ensures MaxIn(ws, lo, mid) <= MaxIn(ws, lo, hi)
  {
    if mid < hi {
      MaxInMonotone(ws, lo, mid, hi - 1);
    }
  }

  /** One more interior weight, the way the generator accumulates its maximum. */
  lemma MaxInGrows(ws: seq<nat>, lo: nat, hi: nat)
    requires hi < |ws|
    ensures hi < lo ==> MaxIn(ws, lo, hi + 1) == MaxIn(ws, lo, hi) == 0
    ensures lo <= hi ==>
              MaxIn(ws, lo, hi + 1) == if MaxIn(ws, lo, hi) > ws[hi] then MaxIn(ws, lo, hi) else ws[hi]
  {
  }

  /** `is_indexed_gram`: would the index-side generator emit the gram `[a, end)`? */
  predicate IsIndexed(ws: seq<nat>, a: nat, end: nat)
    requires a + 2 <= end <= |ws| + 1
  {
    var last := end - 2;
    last == a ||
    (var interior := MaxIn(ws, a + 1, last);
     interior < ws[a] && ws[last] > interior)
  }

  predicate IndexedRange(ws: seq<nat>, r: Range) {
    r.start + 2 <= r.end <= |ws| + 1 && IsIndexed(ws, r.start, r.end)
  }

  /** The text has an indexed sparse gram with these bytes. */
  ghost predicate SparseGramOf(data: seq<Byte>, w: PairWeight, g: Gram) {
    exists r :: IndexedRange(Weights(data, w), r) && g == data[r.start..r.end]
  }

  lemma PairIsIndexed(ws: seq<nat>, a: nat)
    requires a < |ws|
    ensures IndexedRange(ws, Range(a, a + 2))
  {
  }

  lemma IndexedHere(ws: seq<nat>, a: nat, last: nat)
    requires a < last < |ws|
    ensures IndexedRange(ws, Range(a, last + 2)) <==>
              MaxIn(ws, a + 1, last) < ws[a] && ws[last] > MaxIn(ws, a + 1, last)
  {
    hide MaxIn;
  }

  // ---------------------------------------------------------------------------------------------
  // Index side: the resumable generator

  /** `r` comes at or after the candidate with start pair `a` and final pair `last`. */
  predicate AtOrAfter(r: Range, a: nat, last: nat) {
    r.start > a || (r.start == a && r.end >= last + 2)
  }

  /** Every indexed range from candidate `(a, last)` on also lies from `(b, lastB)` on. */
  ghost predicate NoneBefore(ws: seq<nat>, a: nat, last: nat, b: nat, lastB: nat) {
    forall r :: IndexedRange(ws, r) && AtOrAfter(r, a, last) ==> AtOrAfter(r, b, lastB)
  }

  lemma NoneBeforeSelf(ws: seq<nat>, a: nat, last: nat)
    ensures NoneBefore(ws, a, last, a, last)
  {
  }

  lemma NoneBeforeTrans(ws: seq<nat>, a: nat, last: nat, b: nat, lastB: nat, c: nat, lastC: nat)
    requires NoneBefore(ws, a, last, b, lastB) && NoneBefore(ws, b, lastB, c, lastC)
    ensures NoneBefore(ws, a, last, c, lastC)
  {
  }

  /** Past the last start pair nothing is indexed. */
  lemma NoneBeforeEnd(ws: seq<nat>, a: nat, last: nat, b: nat, lastB: nat, c: nat)
    requires NoneBefore(ws, a, last, b, lastB) && b >= |ws|
    ensures NoneBefore(ws, a, last, c, c)
  {
  }

  lemma SkipCandidate(ws: seq<nat>, a: nat, last: nat, b: nat, lastB: nat)
    requires NoneBefore(ws, a, last, b, lastB) && !IndexedRange(ws, Range(b, lastB + 2))
    ensures NoneBefore(ws, a, last, b, lastB + 1)
  {
    forall r | IndexedRange(ws, r) && AtOrAfter(r, a, last) ensures AtOrAfter(r, b, lastB + 1) {
      assert r == Range(r.start, r.end);
    }
  }

  /** Once an interior weight reaches the start weight, no longer gram from this start is indexed. */
  lemma SkipStart(ws: seq<nat>, a: nat, last: nat, b: nat, lastB: nat)
    requires NoneBefore(ws, a, last, b, lastB)
    requires b < lastB <= |ws|
    requires lastB == |ws| || MaxIn(ws, b + 1, lastB) >= ws[b]
    ensures NoneBefore(ws, a, last, b + 1, b + 1)
  {
    forall r | IndexedRange(ws, r) && AtOrAfter(r, a, last) ensures AtOrAfter(r, b + 1, b + 1) {
      if r.start == b && lastB < |ws| {
        MaxInMonotone(ws, b + 1, lastB, r.end - 2);
      }
    }
  }

  class SparseGramRanges {
    var pairCount: nat
    var start: nat
    var end: nat
    var interiorMax: nat
    var startWeight: nat
    var emitPair: bool

    /** The accumulators describe the pairs already scanned from `start`. */
    ghost predicate Valid(ws: seq<nat>)
      reads this
    {
      && pairCount == |ws|
      && (start < pairCount && !emitPair ==>
            && start < end <= pairCount
            && startWeight == ws[start]
            && interiorMax == MaxIn(ws, start + 1, end - 1))
    }

    /** Everything from this final pair of `start` on is still to come. */
    ghost function NextLast(): nat
      reads this
    {
      if emitPair then start else end
    }

    constructor (len: nat)
      ensures forall ws: seq<nat> :: |ws| == (if len < 1 then 0 else len - 1) ==> Valid(ws)
      ensures start == 0 && NextLast() == 0
    {
      pairCount := if len < 1 then 0 else len - 1;
      start, end, interiorMax, startWeight, emitPair := 0, 0, 0, 0, true;
    }

    /** The inner scan: the next longer gram from the current start, if there is one. */
    method NextLonger(data: seq<Byte>, w: PairWeight) returns (r: Option<Range>)
      requires Valid(Weights(data, w)) && start < pairCount && !emitPair
      modifies this
      ensures pairCount == old(pairCount) && start == old(start) && !emitPair
      ensures r.Some? ==> Valid(Weights(data, w))
      ensures r.None? ==>
                NoneBefore(Weights(data, w), old(start), old(end), start + 1, start + 1)
      ensures r.Some? ==>
                && IndexedRange(Weights(data, w), r.value)
                && r.value.start == start && r.value.end == end + 1 && end > old(end)
                && NoneBefore(Weights(data, w), old(start), old(end), start, r.value.end - 2)
    {
      ghost var ws := Weights(data, w);
      hide Weights, MaxIn, IsIndexed, IndexedRange, NoneBefore;
      NoneBeforeSelf(ws, start, end);
      while end < pairCount
        invariant Valid(ws) && !emitPair && start < pairCount && start == old(start) && end >= old(end)
        invariant NoneBefore(ws, start, old(end), start, end)
      {
        MaxInGrows(ws, start + 1, end - 1);
        if end > start + 1 {
          var next := w(data[end - 1], data[end]);
          interiorMax := if interiorMax > next then interiorMax else next;
        }
        if interiorMax >= startWeight {
          break;
        }
        IndexedHere(ws, start, end);
        var current := end;
        end := end + 1;
        if w(data[current], data[current + 1]) > interiorMax {
          return Some(Range(start, current + 2));
        }
        SkipCandidate(ws, start, old(end), start, current);
      }
      SkipStart(ws, start, old(end), start, end);
      return None;
    }

    /** Returns the first indexed range not yet emitted, and moves just past it. */
    method NextWith(data: seq<Byte>, w: PairWeight) returns (r: Option<Range>)
      requires Valid(Weights(data, w))
      modifies this
      ensures Valid(Weights(data, w))
      ensures r.None? ==> NoneBefore(Weights(data, w), old(start), old(NextLast()), |data|, |data|)
      ensures r.Some? ==>
                && IndexedRange(Weights(data, w), r.value)
                && AtOrAfter(r.value, old(start), old(NextLast()))
                && NoneBefore(Weights(data, w), old(start), old(NextLast()), r.value.start, r.value.end - 2)
                && start == r.value.start && NextLast() == r.value.end - 1
    {
      ghost var ws := Weights(data, w);
      ghost var a, last := start, NextLast();
      hide Weights, MaxIn, IsIndexed, IndexedRange, NoneBefore;
      NoneBeforeSelf(ws, a, last);
      while true
        invariant Valid(ws) && NoneBefore(ws, a, last, start, NextLast())
        invariant AtOrAfter(Range(start, NextLast() + 2), a, last)
        decreases pairCount - start, if emitPair then 1 else 0
      {
        if start >= pairCount {
          NoneBeforeEnd(ws, a, last, start, NextLast(), |data|);
          return None;
        }
        if emitPair {
          emitPair := false;
          end := start + 1;
          interiorMax := 0;
          startWeight := w(data[start], data[start + 1]);
          MaxInGrows(ws, start + 1, start);
          PairIsIndexed(ws, start);
          return Some(Range(start, start + 2));
        }
        ghost var from := end;
        r := NextLonger(data, w);
        if r.Some? {
          NoneBeforeTrans(ws, a, last, start, from, start, r.value.end - 2);
          return;
        }
        NoneBeforeTrans(ws, a, last, start, from, start + 1, start + 1);
        start := start + 1;
        emitPair := true;
      }
    }
  }

  /** `sparse_grams_all_bytes`: every indexed gram of the text, sorted, once each. */
  method SparseGramsAll(data: seq<Byte>, w: PairWeight) returns (out: seq<Gram>)
    ensures StrictlySorted(LexLess, out)
    ensures forall g :: g in out <==> SparseGramOf(data, w, g)
  {
    var ranges := new SparseGramRanges(|data|);
    ghost var ws := Weights(data, w);
    var grams: seq<Gram> := [];
    while true
      invariant ranges.Valid(ws) && fresh(ranges)
      invariant forall g :: g in grams ==> SparseGramOf(data, w, g)
      invariant forall r :: IndexedRange(ws, r) ==>
                              data[r.start..r.end] in grams || AtOrAfter(r, ranges.start, ranges.NextLast())
      decreases if |ws| >= ranges.start then |ws| - ranges.start else 0, |ws| + 1 - ranges.NextLast()
    {
      var next := ranges.NextWith(data, w);
      if next.None? {
        break;
      }
      var g := data[next.value.start..next.value.end];
      assert IndexedRange(ws, next.value);
      grams := grams + [g];
    }
    LexTotal();
    SortDedupCorrect(LexLess, grams);
    out := SortDedup(LexLess, grams);
  }
}
