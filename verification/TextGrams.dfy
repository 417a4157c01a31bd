/**
 Index-time and query-time grams of a text, for both strategies, and why a query-time gram of a
 literal is an index-time gram of every text that contains it (crates/core/src/grams.rs).
 */
module TextGrams {
  import opened Wrappers
  import opened BlockSpace
  import opened Sorting
  import opened Grams
  import opened Covering

  predicate TrigramAt(data: seq<Byte>, p: int, g: Gram) {
    0 <= p && p + 3 <= |data| && g == data[p..p + 3]
  }

  ghost predicate TrigramOf(data: seq<Byte>, g: Gram) {
    exists p :: TrigramAt(data, p, g)
  }

  /** `grams_index`, as a set: the grams the index records for a text. */
  ghost predicate GramOf(data: seq<Byte>, strategy: Strategy, w: PairWeight, g: Gram) {
    match strategy
    case Trigram => TrigramOf(data, g)
    case Sparse => SparseGramOf(data, w, g)
  }

  function Windows(data: seq<Byte>): seq<Gram> {
    if |data| < 3 then [] else Windows(data[..|data| - 1]) + [data[|data| - 3..]]
  }

  lemma {:induction false} WindowsElements(data: seq<Byte>, g: Gram)
    ensures g in Windows(data) <==> TrigramOf(data, g)
  {
    if |data| >= 3 {
      WindowsElements(data[..|data| - 1], g);
      if TrigramOf(data[..|data| - 1], g) {
        var p :| TrigramAt(data[..|data| - 1], p, g);
        assert TrigramAt(data, p, g);
      }
      if TrigramOf(data, g) {
        var p :| TrigramAt(data, p, g);
        assert p == |data| - 3 || TrigramAt(data[..|data| - 1], p, g);
      }
      assert TrigramAt(data, |data| - 3, data[|data| - 3..]);
    }
  }

  /** `trigram_grams_bytes`: distinct windows in ascending order. */
  function TrigramGrams(data: seq<Byte>): seq<Gram> {
    SortDedup(LexLess, Windows(data))
  }

  lemma TrigramGramsElements(data: seq<Byte>, g: Gram)
    ensures g in TrigramGrams(data) <==> TrigramOf(data, g)
    ensures StrictlySorted(LexLess, TrigramGrams(data))
  {
    LexTotal();
    SortDedupCorrect(LexLess, Windows(data));
    WindowsElements(data, g);
  }

  /** `grams_query`. */
  function QueryGrams(lit: seq<Byte>, strategy: Strategy, w: PairWeight): seq<Gram> {
    match strategy
    case Trigram => TrigramGrams(lit)
    case Sparse => SparseQueryGrams(lit, w)
  }

  // ---------------------------------------------------------------------------------------------
  // A part of a text has the same weights, so the same indexed ranges

  /** `part` is the stretch of `whole` starting at `off`. */
  ghost predicate PartAt(part: seq<Byte>, whole: seq<Byte>, off: nat) {
    off + |part| <= |whole| && whole[off..off + |part|] == part
  }

  ghost predicate WeightsAt(part: seq<nat>, whole: seq<nat>, off: nat) {
    off + |part| <= |whole| && forall i :: 0 <= i < |part| ==> part[i] == whole[off + i]
  }

  lemma PartWeights(part: seq<Byte>, whole: seq<Byte>, off: nat, w: PairWeight)
    requires PartAt(part, whole, off) && |part| >= 2
    ensures WeightsAt(Weights(part, w), Weights(whole, w), off)
  {
    hide Weights;
    var p, q := Weights(part, w), Weights(whole, w);
    forall i | 0 <= i < |part| ensures part[i] == whole[off + i] {
      assert part[i] == whole[off..off + |part|][i];
    }
    forall i | 0 <= i < |p| ensures p[i] == q[off + i] {
      assert p[i] == w(part[i], part[i + 1]);
      assert q[off + i] == w(whole[off + i], whole[off + i + 1]);
    }
  }

  lemma {:induction false} PartMax(part: seq<nat>, whole: seq<nat>, off: nat, lo: nat, hi: nat)
    requires WeightsAt(part, whole, off) && hi <= |part|
    ensures MaxIn(part, lo, hi) == MaxIn(whole, off + lo, off + hi)
  {
    if lo < hi {
      PartMax(part, whole, off, lo, hi - 1);
    }
  }

  /** Whether a range is indexed depends on nothing outside it. */
  lemma IndexedIsLocal(part: seq<nat>, whole: seq<nat>, off: nat, r: Range)
    requires WeightsAt(part, whole, off) && r.start + 2 <= r.end <= |part| + 1
    ensures IndexedRange(part, r) <==> IndexedRange(whole, Range(off + r.start, off + r.end))
  {
    if r.start + 2 < r.end {
      PartMax(part, whole, off, r.start + 1, r.end - 2);
    }
  }

  lemma SparseGramOfPart(part: seq<Byte>, whole: seq<Byte>, off: nat, w: PairWeight, g: Gram)
    requires PartAt(part, whole, off) && SparseGramOf(part, w, g)
    ensures SparseGramOf(whole, w, g)
  {
    hide Weights, IsIndexed;
    var p, q := Weights(part, w), Weights(whole, w);
    var r :| IndexedRange(p, r) && g == part[r.start..r.end];
    PartWeights(part, whole, off, w);
    IndexedIsLocal(p, q, off, r);
    SliceOfPart(part, whole, off, r.start, r.end);
    var r' := Range(off + r.start, off + r.end);
    assert IndexedRange(q, r') && g == whole[r'.start..r'.end];
  }

  lemma SliceOfPart(part: seq<Byte>, whole: seq<Byte>, off: nat, a: nat, e: nat)
    requires PartAt(part, whole, off) && a <= e <= |part|
    ensures part[a..e] == whole[off + a..off + e]
  {
    forall k | 0 <= k < e - a ensures part[a..e][k] == whole[off + a..off + e][k] {
      assert part[a + k] == whole[off..off + |part|][a + k];
    }
  }

  /** Every gram of a part is a gram of the whole, wherever the part sits. */
  lemma GramOfPart(part: seq<Byte>, whole: seq<Byte>, off: nat, strategy: Strategy, w: PairWeight, g: Gram)
    requires PartAt(part, whole, off) && GramOf(part, strategy, w, g)
    ensures GramOf(whole, strategy, w, g)
  {
    hide Weights, IndexedRange;
    if strategy == Trigram {
      var p :| TrigramAt(part, p, g);
      SliceOfPart(part, whole, off, p, p + 3);
      assert TrigramAt(whole, off + p, g);
    } else {
      SparseGramOfPart(part, whole, off, w, g);
    }
  }

  /** A query-time gram of a literal is an index-time gram of that literal. */
  lemma QueryGramsAreGrams(lit: seq<Byte>, strategy: Strategy, w: PairWeight)
    ensures forall g :: g in QueryGrams(lit, strategy, w) ==> GramOf(lit, strategy, w, g)
    ensures strategy == Trigram ==> forall g :: g in QueryGrams(lit, strategy, w) <==> TrigramOf(lit, g)
  {
    hide Windows, SparseQueryGrams, CoverRanges, Weights, IndexedRange;
    match strategy
    case Trigram =>
      forall g ensures g in TrigramGrams(lit) <==> TrigramOf(lit, g) {
        TrigramGramsElements(lit, g);
      }
    case Sparse =>
      forall g | g in SparseQueryGrams(lit, w) ensures SparseGramOf(lit, w, g) {
        SparseQueryGramsElements(lit, w, g);
      }
  }

  /**
   No false negative from gram selection: whatever the query asks of a literal, the index recorded
   for every text containing that literal, at any offset, ties in the weights included.
   */
  lemma QueryGramsIndexed(lit: seq<Byte>, text: seq<Byte>, off: nat, strategy: Strategy, w: PairWeight)
    requires PartAt(lit, text, off)
    ensures forall g :: g in QueryGrams(lit, strategy, w) ==> GramOf(text, strategy, w, g)
  {
    hide QueryGrams;
    forall g | g in QueryGrams(lit, strategy, w) ensures GramOf(text, strategy, w, g) {
      QueryGramsAreGrams(lit, strategy, w);
      GramOfPart(lit, text, off, strategy, w, g);
    }
  }

  /**
   The query-side grams of a literal really cover it: when no pair of the literal weighs zero, each
   byte lies in an occurrence of a selected gram, ties included.
   */
  lemma SparseQueryGramsCover(lit: seq<Byte>, w: PairWeight, at: nat)
    requires at < |lit| && |lit| >= 2
    requires forall i :: 0 <= i < |lit| - 1 ==> w(lit[i], lit[i + 1]) > 0
    ensures exists a: nat, e: nat :: a <= at < e <= |lit| && lit[a..e] in SparseQueryGrams(lit, w)
  {
    hide Weights, CoverRanges, SparseQueryGrams, IsIndexed, AllIndexed;
    var ws := Weights(lit, w);
    var k := if at == |lit| - 1 then at - 1 else at;
    assert ws[k] == w(lit[k], lit[k + 1]);
    assert Covered(CoverRanges(ws), k) by { CoverRangesCorrect(ws); }
    var r :| r in CoverRanges(ws) && r.start <= k && k + 2 <= r.end;
    assert IndexedRange(ws, r) by { SelectedIsIndexed(ws, r); }
    SparseQueryGramsElements(lit, w, lit[r.start..r.end]);
  }

  lemma SelectedIsIndexed(ws: seq<nat>, r: Range)
    requires r in CoverRanges(ws)
    ensures IndexedRange(ws, r)
  {
    CoverRangesCorrect(ws);
  }

  // ---------------------------------------------------------------------------------------------
  // Block-granular trigrams

  /** Some occurrence of `g` starts in block `b`, for blocks of `B` bytes. */
  ghost predicate TrigramInBlock(data: seq<Byte>, B: nat, b: nat, g: Gram)
    requires B >= 1
  {
    exists p: nat :: TrigramAt(data, p, g) && BlockAt(p, B) == b
  }

  /** The overlapping window of block `b` holds exactly the trigrams starting in that block. */
  lemma BlockWindow(data: seq<Byte>, B: nat, b: nat, start: nat, end: nat, g: Gram)
    requires B >= 1 && start == b * B && start + 2 < |data|
    requires end == if start + B + 2 < |data| then start + B + 2 else |data|
    ensures TrigramOf(data[start..end], g) <==> TrigramInBlock(data, B, b, g)
  {
    if TrigramOf(data[start..end], g) {
      WindowInBlock(data, B, b, start, end, g);
    }
    if TrigramInBlock(data, B, b, g) {
      BlockInWindow(data, B, b, start, end, g);
    }
  }

  lemma WindowInBlock(data: seq<Byte>, B: nat, b: nat, start: nat, end: nat, g: Gram)
    requires B >= 1 && start == b * B && start <= end <= |data| && end <= start + B + 2
    requires TrigramOf(data[start..end], g)
    ensures TrigramInBlock(data, B, b, g)
  {
    var p :| TrigramAt(data[start..end], p, g);
    SliceOfPart(data[start..end], data, start, p, p + 3);
    assert TrigramAt(data, start + p, g);
    BlockIs(start + p, B, b);
  }

  lemma BlockInWindow(data: seq<Byte>, B: nat, b: nat, start: nat, end: nat, g: Gram)
    requires B >= 1 && start == b * B && start <= end <= |data|
    requires end == if start + B + 2 < |data| then start + B + 2 else |data|
    requires TrigramInBlock(data, B, b, g)
    ensures TrigramOf(data[start..end], g)
  {
    var p: nat :| TrigramAt(data, p, g) && BlockAt(p, B) == b;
    BlockBounds(p, B);
    SliceOfPart(data[start..end], data, start, p - start, p - start + 3);
    assert TrigramAt(data[start..end], p - start, g);
  }

  /** Blocks that start past the last window hold no trigram. */
  lemma NoLaterBlock(data: seq<Byte>, B: nat, b: nat, c: nat, g: Gram)
    requires B >= 1 && |data| <= b * B + 2 && b <= c
    ensures !TrigramInBlock(data, B, c, g)
  {
    forall p: nat | TrigramAt(data, p, g) ensures BlockAt(p, B) != c {
      BlockBounds(p, B);
      assert b * B <= c * B;
    }
  }

  ghost predicate BlockGramsAscend(out: seq<(nat, Gram)>) {
    forall i, j :: 0 <= i < j < |out| ==>
                     out[i].0 < out[j].0 || (out[i].0 == out[j].0 && LexLess(out[i].1, out[j].1))
  }

  /** `pack_trigram_block_grams` with a symbolic block size. */
  method PackTrigramBlockGrams(data: seq<Byte>, B: nat) returns (out: seq<(nat, Gram)>)
    requires B >= 1
    ensures forall b: nat, g :: (b, g) in out <==> TrigramInBlock(data, B, b, g)
    ensures BlockGramsAscend(out)
  {
    hide TrigramInBlock, TrigramGrams, AppendBlock, BlockGramsAscend, TrigramOf;
    out := [];
    assert BlockGramsAscend(out) by { EmptyAscends(); }
    var block, start := 0, 0;
    while start + 2 < |data|
      invariant start == block * B
      invariant forall b: nat, g :: (b, g) in out <==> b < block && TrigramInBlock(data, B, b, g)
      invariant BlockGramsAscend(out) && (forall i :: 0 <= i < |out| ==> out[i].0 < block)
      decreases |data| - start
    {
      var end := if start + B + 2 < |data| then start + B + 2 else |data|;
      var grams := TrigramGrams(data[start..end]);
      forall g ensures g in grams <==> TrigramInBlock(data, B, block, g) {
        TrigramGramsElements(data[start..end], g);
        BlockWindow(data, B, block, start, end, g);
      }
      TrigramGramsElements(data[start..end], []);
      AppendAscends(out, block, grams);
      out := AppendBlock(out, block, grams);
      start := start + B;
      block := block + 1;
    }
    forall c: nat, g | c >= block ensures !TrigramInBlock(data, B, c, g) {
      NoLaterBlock(data, B, block, c, g);
    }
  }

  function AppendBlock(out: seq<(nat, Gram)>, block: nat, grams: seq<Gram>): (r: seq<(nat, Gram)>)
    ensures forall b: nat, g :: (b, g) in r <==> (b, g) in out || (b == block && g in grams)
    ensures |r| == |out| + |grams| && r[..|out|] == out
    ensures forall i :: 0 <= i < |grams| ==> r[|out| + i] == (block, grams[i])
    decreases |grams|
  {
    if grams == [] then out
    else
      assert forall g :: g in grams <==> g == grams[0] || g in grams[1..];
      var r := AppendBlock(out + [(block, grams[0])], block, grams[1..]);
      assert r[..|out|] == r[..|out| + 1][..|out|];
      assert r[|out|] == r[..|out| + 1][|out|];
      r
  }

  lemma EmptyAscends()
    ensures BlockGramsAscend([])
  {
  }

  lemma AppendAscends(out: seq<(nat, Gram)>, block: nat, grams: seq<Gram>)
    requires BlockGramsAscend(out) && (forall i :: 0 <= i < |out| ==> out[i].0 < block)
    requires StrictlySorted(LexLess, grams)
    ensures BlockGramsAscend(AppendBlock(out, block, grams))
    ensures forall i :: 0 <= i < |out| + |grams| ==> AppendBlock(out, block, grams)[i].0 <= block
  {
    hide LexLess;
    var r := AppendBlock(out, block, grams);
    hide AppendBlock;
    forall i | 0 <= i < |out| ensures r[i] == out[i] {
      assert r[i] == r[..|out|][i];
    }
    forall i | |out| <= i < |r| ensures r[i] == (block, grams[i - |out|]) {
      assert r[|out| + (i - |out|)] == (block, grams[i - |out|]);
    }
  }
}
