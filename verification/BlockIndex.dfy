/**
 Building the block postings of a trigram segment (`ChunkIngest::ingest` in crates/index/src/build.rs,
 `write_trigram_block_runs` in crates/index/src/build/runs.rs): what the candidate search assumes of a
 segment is what the builder makes.
 */
module BlockIndex {
  import opened Wrappers
  import opened BlockSpace
  import opened Slices
  import opened Sorting
  import opened Grams
  import opened TextGrams
  import opened Eval
  import opened Candidate
  import opened CandidateSearch

  /** `MAX_POSTING_COUNT`: more candidate blocks than this do not go into one segment. */
  const MAX_BLOCKS: nat := COUNT_SPACE - 1

  type Entries = seq<(Gram, nat)>

  /** A trigram starts in some block of some document, and `id` is that block's place in the id space. */
  ghost predicate InSegment(contents: seq<seq<Byte>>, bases: seq<nat>, B: nat, n: nat, g: Gram, id: nat)
    requires B >= 1 && n <= |contents| && n <= |bases|
  {
    exists k: nat, b: nat :: k < n && TrigramInBlock(contents[k], B, b, g) && id == bases[k] + b
  }

  /** The records of the first `n` documents, and no others. */
  ghost predicate EntriesAre(contents: seq<seq<Byte>>, bases: seq<nat>, B: nat, n: nat, entries: Entries)
    requires B >= 1 && n <= |contents| && n <= |bases|
  {
    forall g, id: nat :: (g, id) in entries <==> InSegment(contents, bases, B, n, g, id)
  }

  /** One document's pairs, moved to its place in the id space. */
  function Shifted(pairs: seq<(nat, Gram)>, base: nat): (r: Entries)
    ensures |r| == |pairs| && forall i :: 0 <= i < |r| ==> r[i] == (pairs[i].1, base + pairs[i].0)
  {
    seq(|pairs|, i requires 0 <= i < |pairs| => (pairs[i].1, base + pairs[i].0))
  }

  lemma InShifted(pairs: seq<(nat, Gram)>, base: nat, g: Gram, id: nat)
    ensures (g, id) in Shifted(pairs, base) <==> exists b: nat :: (b, g) in pairs && id == base + b
  {
    if (g, id) in Shifted(pairs, base) {
      var i :| 0 <= i < |pairs| && Shifted(pairs, base)[i] == (g, id);
      assert pairs[i] == (pairs[i].0, g) && (pairs[i].0, g) in pairs;
    }
    if b: nat :| (b, g) in pairs && id == base + b {
      var i :| 0 <= i < |pairs| && pairs[i] == (b, g);
      assert Shifted(pairs, base)[i] == (g, id);
    }
  }

  lemma NoEntries(contents: seq<seq<Byte>>, B: nat)
    requires B >= 1
    ensures EntriesAre(contents, [0], B, 0, [])
  {
  }

  lemma MoreEntries(contents: seq<seq<Byte>>, bases: seq<nat>, B: nat, n: nat, entries: Entries, pairs: seq<(nat, Gram)>, next: nat)
    requires B >= 1 && n < |contents| && n < |bases| && EntriesAre(contents, bases, B, n, entries)
    requires forall b: nat, g :: (b, g) in pairs <==> TrigramInBlock(contents[n], B, b, g)
    ensures EntriesAre(contents, bases + [next], B, n + 1, entries + Shifted(pairs, bases[n]))
  {
    var after, all := bases + [next], entries + Shifted(pairs, bases[n]);
    hide TrigramInBlock, Shifted;
    forall g, id: nat ensures (g, id) in all <==> InSegment(contents, after, B, n + 1, g, id) {
      InShifted(pairs, bases[n], g, id);
      OneMoreDocument(contents, bases, next, B, n, g, id);
    }
  }

  lemma OneMoreDocument(contents: seq<seq<Byte>>, bases: seq<nat>, next: nat, B: nat, n: nat, g: Gram, id: nat)
    requires B >= 1 && n < |contents| && n < |bases|
    ensures InSegment(contents, bases + [next], B, n + 1, g, id) <==>
              InSegment(contents, bases, B, n, g, id) || exists b: nat :: TrigramInBlock(contents[n], B, b, g) && id == bases[n] + b
  {
    hide TrigramInBlock;
    var after := bases + [next];
    assert forall k :: 0 <= k <= n ==> after[k] == bases[k];
    if InSegment(contents, after, B, n + 1, g, id) {
      var k: nat, b: nat :| k < n + 1 && TrigramInBlock(contents[k], B, b, g) && id == after[k] + b;
    }
  }

  /**
   The builder's pass over the documents: sizes and longest lines, block bases, and one record per block
   and trigram. It gives up exactly when the segment would have too many blocks.
   */
  method IndexBlocks(contents: seq<seq<Byte>>, B: nat) returns (r: Result<bool>, docs: seq<DocMeta>, bases: seq<nat>, entries: Entries)
    requires B >= 1
    ensures r.Ok? ==> |docs| == |contents| && (forall k :: 0 <= k < |docs| ==> Describes(docs[k], contents[k]))
    ensures r.Ok? ==> BasesOf(bases, docs, B) && BlockBase(docs, B, |docs|) <= MAX_BLOCKS
    ensures r.Ok? ==> EntriesAre(contents, bases, B, |contents|, entries)
    ensures r.Err? ==> exists n :: 0 < n <= |docs| <= |contents| && BlockBase(docs, B, n) > MAX_BLOCKS
                                   && forall k :: 0 <= k < |docs| ==> Describes(docs[k], contents[k])
  {
    docs, bases, entries := [], [0], [];
    NoEntries(contents, B);
    hide TrigramInBlock, EntriesAre, InSegment, Shifted, LongestLine, BlockGramsAscend;
    for n := 0 to |contents|
      invariant |docs| == n && (forall k :: 0 <= k < n ==> Describes(docs[k], contents[k]))
      invariant BasesOf(bases, docs, B) && bases[n] <= MAX_BLOCKS
      invariant EntriesAre(contents, bases, B, n, entries)
    {
      EmptyLine();
      var carry, max := TrackMaxLine([], contents[n], 0, 0);
      assert [] + contents[n] == contents[n];
      var doc := DocMeta(|contents[n]|, Saturate(max));
      BaseNext(docs, doc, B);
      var next := bases[n] + BlocksOf(doc.size, B);
      if next > MAX_BLOCKS {
        docs := docs + [doc];
        assert BlockBase(docs, B, n + 1) > MAX_BLOCKS;
        return Err, docs, bases, entries;
      }
      var pairs := PackTrigramBlockGrams(contents[n], B);
      MoreEntries(contents, bases, B, n, entries, pairs, next);
      entries := entries + Shifted(pairs, bases[n]);
      docs := docs + [doc];
      bases := bases + [next];
    }
    return Ok(true), docs, bases, entries;
  }

  lemma EmptyLine()
    ensures Carry([]) == 0 && LongestLine([]) == 0
  {
  }

  lemma {:induction false} BasePrefix(docs: seq<DocMeta>, doc: DocMeta, B: nat, k: nat)
    requires B >= 1 && k <= |docs|
    ensures BlockBase(docs + [doc], B, k) == BlockBase(docs, B, k)
  {
    if k > 0 {
      BasePrefix(docs, doc, B, k - 1);
    }
  }

  lemma BaseNext(docs: seq<DocMeta>, doc: DocMeta, B: nat)
    requires B >= 1
    ensures forall k :: 0 <= k <= |docs| ==> BlockBase(docs + [doc], B, k) == BlockBase(docs, B, k)
    ensures BlockBase(docs + [doc], B, |docs| + 1) == BlockBase(docs, B, |docs|) + BlocksOf(doc.size, B)
  {
    forall k | 0 <= k <= |docs| ensures BlockBase(docs + [doc], B, k) == BlockBase(docs, B, k) {
      BasePrefix(docs, doc, B, k);
    }
  }

  // ---------------------------------------------------------------------------------------------
  // Posting lists

  function Select(entries: Entries, g: Gram): (r: seq<nat>)
    ensures forall id :: id in r <==> (g, id) in entries
  {
    if entries == [] then []
    else
      assert entries == [entries[0]] + entries[1..];
      (if entries[0].0 == g then [entries[0].1] else []) + Select(entries[1..], g)
  }

  /** A gram's list after the records are sorted and merged. */
  function PostingIds(entries: Entries, g: Gram): seq<nat> { SortDedup(IdLess, Select(entries, g)) }

  lemma PostingIdsAre(entries: Entries, g: Gram)
    ensures StrictlySorted(IdLess, PostingIds(entries, g))
    ensures forall id :: id in PostingIds(entries, g) <==> (g, id) in entries
  {
    IdLessTotal();
    SortDedupCorrect(IdLess, Select(entries, g));
  }

  /** Every record's id lies in its document's share of the id space. */
  lemma EntryInSpace(contents: seq<seq<Byte>>, docs: seq<DocMeta>, bases: seq<nat>, B: nat, g: Gram, id: nat)
    requires B >= 1 && |docs| == |contents| && BasesOf(bases, docs, B) && InSegment(contents, bases, B, |contents|, g, id)
    requires forall k :: 0 <= k < |docs| ==> Describes(docs[k], contents[k])
    ensures id < BlockBase(docs, B, |docs|)
  {
    hide LongestLine;
    var k: nat, b: nat :| k < |contents| && TrigramInBlock(contents[k], B, b, g) && id == bases[k] + b;
    var p: nat :| TrigramAt(contents[k], p, g) && BlockAt(p, B) == b;
    BlockOfByte(|contents[k]|, B, p);
    assert Describes(docs[k], contents[k]);
    assert bases[k + 1] == bases[k] + BlocksOf(docs[k].size, B);
    BasesAscend(docs, B, k + 1, |docs|);
  }

  /** A dictionary over the built lists. */
  ghost predicate Lists(d: Dictionary, entries: Entries) {
    forall g :: d.postings(g) == PostingIds(entries, g)
  }

  /** The built lists have every trigram of every block, hold nothing else, and fit the id space. */
  lemma BuiltPostings(contents: seq<seq<Byte>>, docs: seq<DocMeta>, bases: seq<nat>, B: nat, entries: Entries, d: Dictionary)
    requires B >= 1 && |docs| == |contents| && (forall k :: 0 <= k < |docs| ==> Describes(docs[k], contents[k]))
    requires BasesOf(bases, docs, B) && EntriesAre(contents, bases, B, |contents|, entries) && Lists(d, entries)
    ensures BlockPostingsComplete(d, contents, bases, B)
    ensures forall g, id :: id in d.postings(g) <==> InSegment(contents, bases, B, |contents|, g, id)
    ensures forall g :: StrictlySorted(IdLess, d.postings(g)) && forall id :: id in d.postings(g) ==> id < BlockBase(docs, B, |docs|)
  {
    hide TrigramInBlock, Describes, PostingIds, StrictlySorted;
    forall g, id ensures id in d.postings(g) <==> InSegment(contents, bases, B, |contents|, g, id) {
      PostingIdsAre(entries, g);
    }
    forall g ensures StrictlySorted(IdLess, d.postings(g)) && forall id :: id in d.postings(g) ==> id < BlockBase(docs, B, |docs|) {
      PostingIdsAre(entries, g);
      forall id | id in d.postings(g) ensures id < BlockBase(docs, B, |docs|) {
        EntryInSpace(contents, docs, bases, B, g, id);
      }
    }
    forall k, b: nat, g | 0 <= k < |contents| && TrigramInBlock(contents[k], B, b, g) ensures bases[k] + b in d.postings(g) {
      assert InSegment(contents, bases, B, |contents|, g, bases[k] + b);
    }
  }

  /** What the builder makes is what the search assumes, given a dictionary that answers for its lists. */
  lemma BuiltSegmentOk(contents: seq<seq<Byte>>, docs: seq<DocMeta>, bases: seq<nat>, B: nat, entries: Entries, d: Dictionary)
    requires B >= 1 && |docs| == |contents| && (forall k :: 0 <= k < |docs| ==> Describes(docs[k], contents[k]))
    requires BasesOf(bases, docs, B) && BlockBase(docs, B, |docs|) <= MAX_BLOCKS
    requires EntriesAre(contents, bases, B, |contents|, entries) && Lists(d, entries)
    requires DictionaryOk(d) && d.idSpace == BlockBase(docs, B, |docs|)
    ensures SegmentOk(Segment(contents, docs, bases, d), B)
  {
    BuiltPostings(contents, docs, bases, B, entries, d);
    hide BlockPostingsComplete, DictionaryOk, EntriesAre, Lists, InSegment, StrictlySorted, LongestLine;
  }
}
