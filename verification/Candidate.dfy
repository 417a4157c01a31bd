/**
 Block-granular candidates: block ids, their expansion around a match, and the grouping and merging
 of selected blocks into per-document ranges (crates/index/src/candidate.rs).  The block size `B`
 stays symbolic.
 */
module Candidate {
  import opened Wrappers
  import opened BlockSpace
  import opened Sorting
  import opened Grams
  import opened TextGrams
  import opened QueryPlan
  import opened Eval

  const U32_MAX := 0xFFFF_FFFF

  datatype Extent = Bytes(span: nat) | Lines | Document

  /** What a document entry tells the candidate code. */
  datatype DocMeta = DocMeta(size: nat, maxLineLen: nat)

  datatype CandidateRange = CandidateRange(start: nat, end: nat, extent: Extent)

  // ---------------------------------------------------------------------------------------------
  // The longest line

  /** Bytes since the last newline. */
  function Carry(t: seq<Byte>): nat {
    if t == [] || t[|t| - 1] == NEWLINE then 0 else Carry(t[..|t| - 1]) + 1
  }

  function LongestLine(t: seq<Byte>): (r: nat)
    ensures r >= Carry(t)
  {
    if t == [] then 0
    else
      var front := LongestLine(t[..|t| - 1]);
      if Carry(t) > front then Carry(t) else front
  }

  /** `track_max_line`: one chunk of a streamed document. */
  method TrackMaxLine(ghost before: seq<Byte>, data: seq<Byte>, carry: nat, max: nat) returns (carry': nat, max': nat)
    requires carry == Carry(before) && max == LongestLine(before)
    ensures carry' == Carry(before + data) && max' == LongestLine(before + data)
  {
    carry', max' := carry, max;
    assert before + data[..0] == before;
    for k := 0 to |data|
      invariant carry' == Carry(before + data[..k])
      invariant max' <= LongestLine(before + data[..k])
      invariant LongestLine(before + data[..k]) == if max' > carry' then max' else carry'
    {
      assert (before + data[..k + 1])[..|before| + k] == before + data[..k];
      if data[k] == NEWLINE {
        if carry' > max' {
          max' := carry';
        }
        carry' := 0;
      } else {
        carry' := carry' + 1;
      }
    }
    assert data[..|data|] == data;
    if carry' > max' {
      max' := carry';
    }
  }

  lemma {:induction false} StretchAtEnd(t: seq<Byte>, i: nat)
    requires i <= |t| && NEWLINE !in t[i..]
    ensures |t| - i <= Carry(t)
  {
    if i < |t| {
      assert t[|t| - 1] == t[i..][|t| - 1 - i];
      assert forall k :: 0 <= k < |t[..|t| - 1][i..]| ==> t[..|t| - 1][i..][k] == t[i..][k];
      StretchAtEnd(t[..|t| - 1], i);
    }
  }

  /** No newline-free stretch is longer than the recorded longest line. */
  lemma {:induction false} NewlineFreeFits(t: seq<Byte>, i: nat, j: nat)
    requires i <= j <= |t| && NEWLINE !in t[i..j]
    ensures j - i <= LongestLine(t)
  {
    if j == |t| {
      assert t[i..j] == t[i..];
      StretchAtEnd(t, i);
    } else {
      assert t[..|t| - 1][i..j] == t[i..j];
      NewlineFreeFits(t[..|t| - 1], i, j);
    }
  }

  lemma {:induction false} CarryIsReached(t: seq<Byte>)
    ensures Carry(t) <= |t| && NEWLINE !in t[|t| - Carry(t)..]
    ensures Carry(t) < |t| ==> t[|t| - Carry(t) - 1] == NEWLINE
  {
    if t != [] && t[|t| - 1] != NEWLINE {
      var front := t[..|t| - 1];
      CarryIsReached(front);
      assert t[|t| - Carry(t)..] == front[|front| - Carry(front)..] + [t[|t| - 1]];
    }
  }

  /** Some newline-free stretch is exactly as long as the recorded longest line. */
  lemma {:induction false} LongestIsReached(t: seq<Byte>)
    ensures exists i: nat, j: nat :: i <= j <= |t| && NEWLINE !in t[i..j] && j - i == LongestLine(t)
  {
    if t == [] {
      assert NEWLINE !in t[0..0];
    } else if Carry(t) == LongestLine(t) {
      CarryIsReached(t);
      assert t[|t| - Carry(t)..|t|] == t[|t| - Carry(t)..];
    } else {
      var front := t[..|t| - 1];
      LongestIsReached(front);
      var i: nat, j: nat :| i <= j <= |front| && NEWLINE !in front[i..j] && j - i == LongestLine(front);
      assert t[i..j] == front[i..j];
    }
  }

  /** The `u32` field of the document table: larger values saturate. */
  function Saturate(n: nat): nat { if n > U32_MAX then U32_MAX else n }

  // ---------------------------------------------------------------------------------------------
  // Block ids

  function BlocksOf(size: nat, B: nat): nat
    requires B >= 1
  {
    BlockAt(size + B - 1, B)
  }

  lemma BlockOfByte(size: nat, B: nat, p: nat)
    requires B >= 1 && p < size
    ensures BlockAt(p, B) < BlocksOf(size, B)
  {
    BlockBounds(p, B);
    BlockBounds(size + B - 1, B);
    var q, n := BlockAt(p, B), BlocksOf(size, B);
    assert n * B + B > size + B - 1;
    assert (n - q) * B == n * B - q * B;
    assert n <= q ==> (n - q) * B <= 0;
  }

  /** The first block id of document `d`; `d == |docs|` gives the size of the id space. */
  function BlockBase(docs: seq<DocMeta>, B: nat, d: nat): nat
    requires B >= 1 && d <= |docs|
  {
    if d == 0 then 0 else BlockBase(docs, B, d - 1) + BlocksOf(docs[d - 1].size, B)
  }

  lemma {:induction false} BasesAscend(docs: seq<DocMeta>, B: nat, a: nat, b: nat)
    requires B >= 1 && a <= b <= |docs|
    ensures BlockBase(docs, B, a) <= BlockBase(docs, B, b)
    decreases b
  {
    if a < b {
      BasesAscend(docs, B, a, b - 1);
    }
  }

  ghost predicate BasesOf(bases: seq<nat>, docs: seq<DocMeta>, B: nat)
    requires B >= 1
  {
    |bases| == |docs| + 1 && forall d :: 0 <= d < |bases| ==> bases[d] == BlockBase(docs, B, d)
  }

  /** `build_block_bases`: fails exactly when the id space does not fit a u32. */
  method BuildBlockBases(docs: seq<DocMeta>, B: nat) returns (r: Result<seq<nat>>)
    requires B >= 1
    ensures r.Ok? <==> BlockBase(docs, B, |docs|) <= U32_MAX
    ensures r.Ok? ==> BasesOf(r.value, docs, B)
  {
    hide *;
    var bases: seq<nat> := [0];
    var next: nat := 0;
    NoBase(docs, B);
    for d := 0 to |docs|
      invariant next == BlockBase(docs, B, d) && next <= U32_MAX
      invariant |bases| == d + 1 && forall k :: 0 <= k <= d ==> bases[k] == BlockBase(docs, B, k)
    {
      var blocks := BlocksOf(docs[d].size, B);
      BaseStep(docs, B, d);
      if next + blocks > U32_MAX {
        BasesAscend(docs, B, d + 1, |docs|);
        return Err;
      }
      next := next + blocks;
      bases := bases + [next];
    }
    AreBases(bases, docs, B);
    return Ok(bases);
  }

  lemma NoBase(docs: seq<DocMeta>, B: nat)
    requires B >= 1
    ensures BlockBase(docs, B, 0) == 0 <= U32_MAX
  {
  }

  lemma BaseStep(docs: seq<DocMeta>, B: nat, d: nat)
    requires B >= 1 && d < |docs|
    ensures BlockBase(docs, B, d + 1) == BlockBase(docs, B, d) + BlocksOf(docs[d].size, B)
  {
  }

  lemma AreBases(bases: seq<nat>, docs: seq<DocMeta>, B: nat)
    requires B >= 1 && |bases| == |docs| + 1 && forall k :: 0 <= k <= |docs| ==> bases[k] == BlockBase(docs, B, k)
    ensures BasesOf(bases, docs, B)
  {
  }

  /** How many leading bases do not exceed `id`. */
  function PartitionPoint(bases: seq<nat>, id: nat): (r: nat)
    ensures r <= |bases|
    ensures forall k :: 0 <= k < r ==> bases[k] <= id
    ensures r < |bases| ==> bases[r] > id
  {
    if bases == [] || bases[0] > id then 0 else 1 + PartitionPoint(bases[1..], id)
  }

  /** `get_block_document`: the document owning a block id; empty documents own none. */
  function GetBlockDocument(id: nat, bases: seq<nat>): nat
    requires bases != [] && bases[0] == 0
  {
    PartitionPoint(bases, id) - 1
  }

  lemma BlockDocumentOwns(id: nat, bases: seq<nat>, docs: seq<DocMeta>, B: nat)
    requires B >= 1 && BasesOf(bases, docs, B) && id < BlockBase(docs, B, |docs|)
    ensures var d := GetBlockDocument(id, bases); d < |docs| && bases[d] <= id < bases[d + 1]
  {
  }

  lemma BlockDocumentUnique(id: nat, bases: seq<nat>, docs: seq<DocMeta>, B: nat, d: nat)
    requires B >= 1 && BasesOf(bases, docs, B) && d < |docs| && bases[d] <= id < bases[d + 1]
    ensures GetBlockDocument(id, bases) == d
  {
    var p := PartitionPoint(bases, id);
    if p <= d {
      BasesAscend(docs, B, p, d);
    }
  }

  // ---------------------------------------------------------------------------------------------
  // Expansion

  function Slack(extent: Extent, maxLineLen: nat, blocks: nat, B: nat): nat
    requires B >= 1 && (extent.Bytes? ==> extent.span >= 1) && !extent.Document?
  {
    match extent
    case Bytes(span) => var s := 1 + BlockAt(span - 1, B); if s > U32_MAX then U32_MAX else s
    case Lines => if maxLineLen == U32_MAX then blocks else 1 + BlockAt(maxLineLen, B)
  }

  /** `expand_candidate_block`: the blocks a match with a gram in block `id` may touch. */
  function ExpandBlock(id: nat, bases: seq<nat>, docs: seq<DocMeta>, extent: Extent, B: nat): (nat, nat)
    requires B >= 1 && BasesOf(bases, docs, B) && id < BlockBase(docs, B, |docs|)
    requires extent.Bytes? ==> extent.span >= 1
  {
    BlockDocumentOwns(id, bases, docs, B);
    var d := GetBlockDocument(id, bases);
    var start, end := bases[d], bases[d + 1] - 1;
    if extent.Document? then (start, end)
    else
      var slack := Slack(extent, docs[d].maxLineLen, end - start + 1, B);
      var lo := if id < slack then 0 else id - slack;
      var hi := id + slack;
      (if lo > start then lo else start, if hi < end then hi else end)
  }

  /** The expansion of a block contains it and stays inside its document. */
  lemma ExpansionInDocument(id: nat, bases: seq<nat>, docs: seq<DocMeta>, extent: Extent, B: nat)
    requires B >= 1 && BasesOf(bases, docs, B) && id < BlockBase(docs, B, |docs|)
    requires extent.Bytes? ==> extent.span >= 1
    ensures var d := GetBlockDocument(id, bases);
            var range := ExpandBlock(id, bases, docs, extent, B);
            d < |docs| && bases[d] <= range.0 <= id <= range.1 < bases[d + 1]
  {
    BlockDocumentOwns(id, bases, docs, B);
  }

  /** The number of blocks to look around, from the extent: as many as a match can straddle. */
  function Reach(extent: Extent, maxLineLen: nat, B: nat): nat
    requires B >= 1 && (extent.Bytes? ==> extent.span >= 1) && !extent.Document?
  {
    1 + (match extent
         case Bytes(span) => (span - 1) / B
         case Lines => maxLineLen / B)
  }

  /**
   An expansion holds exactly the document's blocks within reach of the block; all of them for a whole
   document, or for lines whose recorded maximum is saturated.
   */
  lemma ExpansionIs(id: nat, bases: seq<nat>, docs: seq<DocMeta>, extent: Extent, B: nat, x: nat)
    requires B >= 1 && BasesOf(bases, docs, B) && BlockBase(docs, B, |docs|) <= U32_MAX && id < BlockBase(docs, B, |docs|)
    requires extent.Bytes? ==> extent.span >= 1
    ensures var d := GetBlockDocument(id, bases);
      && d < |docs| && bases[d] <= id < bases[d + 1]
      && (Within(ExpandBlock(id, bases, docs, extent, B), x) <==>
            bases[d] <= x < bases[d + 1] &&
            (extent.Document? || (extent.Lines? && docs[d].maxLineLen == U32_MAX)
             || (x <= id + Reach(extent, docs[d].maxLineLen, B) && id <= x + Reach(extent, docs[d].maxLineLen, B))))
  {
    BlockDocumentOwns(id, bases, docs, B);
    BasesAscend(docs, B, GetBlockDocument(id, bases) + 1, |docs|);
    hide GetBlockDocument, BlockBase, BlocksOf;
  }

  /** The match lies inside the extent the plan promised. */
  ghost predicate Fits(extent: Extent, t: seq<Byte>, i: nat, j: nat)
    requires i <= j <= |t|
  {
    match extent
    case Bytes(span) => span >= 1 && j - i <= span
    case Lines => NEWLINE !in t[i..j]
    case Document => true
  }

  ghost predicate Describes(doc: DocMeta, t: seq<Byte>) {
    doc.size == |t| && doc.maxLineLen == Saturate(LongestLine(t))
  }

  /** Two positions less than `len` apart lie in blocks less than `1 + BlockAt(len - 1, B)` apart, or so. */
  lemma BlockDistance(p: nat, q: nat, len: nat, B: nat)
    requires B >= 1 && p <= q < p + len
    ensures BlockAt(q, B) - BlockAt(p, B) <= 1 + BlockAt(len - 1, B)
  {
    BlockBounds(p, B);
    BlockBounds(q, B);
    BlockBounds(len - 1, B);
    var a, b, c := BlockAt(p, B), BlockAt(q, B), BlockAt(len - 1, B);
    var k := b - a - c - 2;
    assert b * B <= q && p < a * B + B && len - 1 < c * B + B;
    assert k * B == b * B - a * B - c * B - 2 * B;
    assert k >= 0 ==> k * B >= 0;
  }

  lemma DivMonotone(a: nat, b: nat, B: nat)
    requires B >= 1 && a <= b
    ensures BlockAt(a, B) <= BlockAt(b, B)
  {
    BlockBounds(a, B);
    BlockBounds(b, B);
    var k := BlockAt(a, B) - BlockAt(b, B);
    assert k * B == BlockAt(a, B) * B - BlockAt(b, B) * B;
    assert k >= 1 ==> k * B >= B;
  }

  /** Two positions of one match are at most the slack apart, counted in blocks. */
  lemma SlackReaches(extent: Extent, doc: DocMeta, B: nat, t: seq<Byte>, i: nat, j: nat, p: nat, x: nat)
    requires B >= 1 && Describes(doc, t) && BlocksOf(|t|, B) <= U32_MAX
    requires i <= p <= x < j <= |t| && Fits(extent, t, i, j) && !extent.Document?
    ensures BlockAt(p, B) <= BlockAt(x, B)
    ensures BlockAt(x, B) - BlockAt(p, B) <= Slack(extent, doc.maxLineLen, BlocksOf(|t|, B), B)
  {
    hide BlockAt, LongestLine;
    BlockDistance(p, x, j - i, B);
    DivMonotone(p, x, B);
    BlockOfByte(|t|, B, x);
    hide BlocksOf;
    var a, b := BlockAt(p, B), BlockAt(x, B);
    if extent.Lines? {
      NewlineFreeFits(t, i, j);
      DivMonotone(j - i - 1, LongestLine(t), B);
    } else {
      DivMonotone(j - i - 1, extent.span - 1, B);
    }
  }

  /**
   The slack reaches every block of the match from every block one of its grams starts in: for
   positions `p` and `x` inside one match, the block of `x` is in the expansion of the block of `p`.
   */
  lemma ExpansionCoversMatch(docs: seq<DocMeta>, bases: seq<nat>, B: nat, d: nat, extent: Extent,
                             t: seq<Byte>, i: nat, j: nat, p: nat, x: nat)
    requires B >= 1 && BasesOf(bases, docs, B) && BlockBase(docs, B, |docs|) <= U32_MAX
    requires d < |docs| && Describes(docs[d], t)
    requires i <= p < j <= |t| && i <= x < j && Fits(extent, t, i, j)
    ensures bases[d] + BlockAt(p, B) < BlockBase(docs, B, |docs|)
    ensures Within(ExpandBlock(bases[d] + BlockAt(p, B), bases, docs, extent, B), bases[d] + BlockAt(x, B))
  {
    hide BlockAt, BlocksOf, Slack, Fits, GetBlockDocument, LongestLine;
    BlockOfByte(|t|, B, p);
    BlockOfByte(|t|, B, x);
    BasesAscend(docs, B, d + 1, |docs|);
    assert bases[d + 1] - bases[d] == BlocksOf(|t|, B);
    var a, b := BlockAt(p, B), BlockAt(x, B);
    BlockDocumentUnique(bases[d] + a, bases, docs, B, d);
    if !extent.Document? {
      if p <= x {
        SlackReaches(extent, docs[d], B, t, i, j, p, x);
      } else {
        SlackReaches(extent, docs[d], B, t, i, j, x, p);
      }
    }
  }
}
