/**
 From documents to packs and back: the builder's slices tile the decoded stream, the format check
 accepts exactly such slices, and every range of every document reads back unchanged.
 */
module PackDocuments {
  import opened Wrappers
  import opened Slices
  import opened PackRead
  import opened PackBuild

  /** A document's entry in the table: where it begins and how long it is. */
  datatype Entry = Entry(slice: Slice, size: nat)

  function Total(entries: seq<Entry>): nat {
    if entries == [] then 0 else Total(entries[..|entries| - 1]) + entries[|entries| - 1].size
  }

  /** Each document begins where the previous one ended; empty ones have zero coordinates. */
  ghost predicate Contiguous(lens: seq<nat>, entries: seq<Entry>) {
    entries == [] ||
    (var last := entries[|entries| - 1];
     && Contiguous(lens, entries[..|entries| - 1])
     && Placed(lens, last.slice, last.size)
     && (last.size > 0 ==> Position(lens, last.slice) == Total(entries[..|entries| - 1])))
  }

  /** The documents account for every decoded byte, in order. */
  ghost predicate TileStream(lens: seq<nat>, entries: seq<Entry>) {
    Contiguous(lens, entries) && Total(entries) == Start(lens, |lens|)
  }

  // ---------------------------------------------------------------------------------------------
  // The format check

  predicate Canonical(lens: seq<nat>, block: nat, offset: nat) {
    if block < |lens| then offset < lens[block] else block == |lens| && offset == 0
  }

  lemma CanonicalUnique(lens: seq<nat>, a: nat, i: nat, b: nat, j: nat)
    requires Canonical(lens, a, i) && Canonical(lens, b, j) && Start(lens, a) + i == Start(lens, b) + j
    ensures a == b && i == j
  {
    if a < b {
      StartGrows(lens, a + 1, b);
    } else if b < a {
      StartGrows(lens, b + 1, a);
    }
  }

  /** Step over `size` decoded bytes from a canonical position. */
  method Consume(lens: seq<nat>, block: nat, offset: nat, size: nat) returns (r: Option<(nat, nat)>)
    requires NoEmptyBlock(lens) && Canonical(lens, block, offset)
    ensures r.Some? <==> Start(lens, block) + offset + size <= Start(lens, |lens|)
    ensures r.Some? ==> Canonical(lens, r.value.0, r.value.1) && Start(lens, r.value.0) + r.value.1 == Start(lens, block) + offset + size
  {
    var nextBlock: nat, nextOffset: nat, remaining: int := block, offset, size;
    while remaining > 0
      invariant remaining >= 0 && Canonical(lens, nextBlock, nextOffset)
      invariant Start(lens, nextBlock) + nextOffset + remaining == Start(lens, block) + offset + size
      decreases remaining
    {
      if nextBlock >= |lens| {
        return None;
      }
      var available := lens[nextBlock] - nextOffset;
      var consumed := if remaining < available then remaining else available;
      remaining := remaining - consumed;
      nextOffset := nextOffset + consumed;
      if nextOffset == lens[nextBlock] {
        nextBlock := nextBlock + 1;
        nextOffset := 0;
      }
    }
    StartGrows(lens, if nextBlock < |lens| then nextBlock + 1 else nextBlock, |lens|);
    return Some((nextBlock, nextOffset));
  }

  lemma ContiguousNext(lens: seq<nat>, entries: seq<Entry>, i: nat)
    requires i < |entries|
    ensures Contiguous(lens, entries[..i + 1]) <==>
      && Contiguous(lens, entries[..i])
      && Placed(lens, entries[i].slice, entries[i].size)
      && (entries[i].size > 0 ==> Position(lens, entries[i].slice) == Total(entries[..i]))
    ensures Total(entries[..i + 1]) == Total(entries[..i]) + entries[i].size
  {
    assert entries[..i + 1][..i] == entries[..i];
  }

  lemma {:induction false} ContiguousPrefix(lens: seq<nat>, entries: seq<Entry>, i: nat)
    requires i <= |entries| && Contiguous(lens, entries)
    ensures Contiguous(lens, entries[..i])
  {
    if i < |entries| {
      ContiguousPrefix(lens, entries[..|entries| - 1], i);
      assert entries[..|entries| - 1][..i] == entries[..i];
    } else {
      assert entries[..i] == entries;
    }
  }

  /** The document half of `SegmentTables::validate`: it accepts exactly the tables that tile the stream. */
  method ValidateDocuments(lens: seq<nat>, entries: seq<Entry>) returns (ok: bool)
    requires NoEmptyBlock(lens)
    ensures ok <==> TileStream(lens, entries)
  {
    var nextBlock: nat, nextOffset: nat := 0, 0;
    hide Contiguous, Total, NoEmptyBlock, Start;
    assert Contiguous(lens, entries[..0]) && Total(entries[..0]) == 0 == Start(lens, 0) && Canonical(lens, 0, 0) by { NothingYet(lens, entries); }
    for i := 0 to |entries|
      invariant nextBlock <= |lens| && Canonical(lens, nextBlock, nextOffset)
      invariant Contiguous(lens, entries[..i]) && Total(entries[..i]) == Start(lens, nextBlock) + nextOffset
    {
      var entry := entries[i];
      ContiguousNext(lens, entries, i);
      NextIsPlaced(lens, entry, nextBlock, nextOffset);
      if !Contiguous(lens, entries[..i + 1]) && Contiguous(lens, entries) {
        ContiguousPrefix(lens, entries, i + 1);
      }
      if entry.size == 0 {
        if entry.slice != Slice(0, 0) {
          return false;
        }
        continue;
      }
      if entry.slice.firstBlock != nextBlock || entry.slice.blockOffset != nextOffset {
        return false;
      }
      var stepped := Consume(lens, nextBlock, nextOffset, entry.size);
      if stepped.None? {
        return false;
      }
      nextBlock, nextOffset := stepped.value.0, stepped.value.1;
    }
    assert entries[..|entries|] == entries;
    AtTheEnd(lens, nextBlock, nextOffset);
    return nextBlock == |lens| && nextOffset == 0;
  }

  lemma NothingYet(lens: seq<nat>, entries: seq<Entry>)
    requires NoEmptyBlock(lens)
    ensures Contiguous(lens, entries[..0]) && Total(entries[..0]) == 0 == Start(lens, 0) && Canonical(lens, 0, 0)
  {
  }

  lemma NextIsPlaced(lens: seq<nat>, entry: Entry, block: nat, offset: nat)
    requires Canonical(lens, block, offset)
    ensures entry.size > 0 ==>
      (Placed(lens, entry.slice, entry.size) && Position(lens, entry.slice) == Start(lens, block) + offset <==>
       entry.slice == Slice(block, offset) && Start(lens, block) + offset + entry.size <= Start(lens, |lens|))
  {
    if entry.size > 0 && Placed(lens, entry.slice, entry.size) && Position(lens, entry.slice) == Start(lens, block) + offset {
      CanonicalUnique(lens, entry.slice.firstBlock, entry.slice.blockOffset, block, offset);
    }
  }

  lemma AtTheEnd(lens: seq<nat>, block: nat, offset: nat)
    requires Canonical(lens, block, offset)
    ensures block == |lens| && offset == 0 <==> Start(lens, block) + offset == Start(lens, |lens|)
  {
    if Start(lens, block) + offset == Start(lens, |lens|) {
      CanonicalUnique(lens, block, offset, |lens|, 0);
    }
  }

  // ---------------------------------------------------------------------------------------------
  // Packing a list of documents

  /** The slice names position `pos` of the stream built so far. */
  ghost predicate At(decoded: seq<seq<Byte>>, size: nat, slice: Slice, pos: nat) {
    slice.firstBlock <= |decoded| && slice.blockOffset < size && |Concat(decoded, slice.firstBlock)| + slice.blockOffset == pos
  }

  lemma AtStays(decoded: seq<seq<Byte>>, after: seq<seq<Byte>>, size: nat, slice: Slice, pos: nat)
    requires At(decoded, size, slice, pos) && decoded <= after
    ensures At(after, size, slice, pos)
  {
    assert after == decoded + after[|decoded|..];
    ConcatPrefix(decoded, after[|decoded|..], slice.firstBlock);
  }

  /** Entry `d` records document `d`. */
  ghost predicate Recorded(decoded: seq<seq<Byte>>, size: nat, docs: seq<seq<Byte>>, entries: seq<Entry>, d: nat)
    requires d < |entries| && d < |docs|
  {
    && entries[d].size == |docs[d]|
    && (if docs[d] == [] then entries[d].slice == Slice(0, 0) else At(decoded, size, entries[d].slice, |Concat(docs, d)|))
  }

  ghost predicate AllRecorded(decoded: seq<seq<Byte>>, size: nat, docs: seq<seq<Byte>>, entries: seq<Entry>) {
    |entries| <= |docs| && forall d :: 0 <= d < |entries| ==> Recorded(decoded, size, docs, entries, d)
  }

  lemma RecordedNext(decoded: seq<seq<Byte>>, after: seq<seq<Byte>>, size: nat, docs: seq<seq<Byte>>, entries: seq<Entry>, entry: Entry)
    requires AllRecorded(decoded, size, docs, entries) && decoded <= after && |entries| < |docs|
    requires entry.size == |docs[|entries|]|
    requires if entry.size == 0 then entry.slice == Slice(0, 0) else At(decoded, size, entry.slice, |Concat(docs, |entries|)|)
    ensures AllRecorded(after, size, docs, entries + [entry])
  {
    var more := entries + [entry];
    forall d | 0 <= d < |more| ensures Recorded(after, size, docs, more, d) {
      if d < |entries| {
        assert Recorded(decoded, size, docs, entries, d);
      }
      if docs[d] != [] {
        AtStays(decoded, after, size, more[d].slice, |Concat(docs, d)|);
      }
    }
  }

  lemma RecordedStays(decoded: seq<seq<Byte>>, after: seq<seq<Byte>>, size: nat, docs: seq<seq<Byte>>, entries: seq<Entry>)
    requires AllRecorded(decoded, size, docs, entries) && decoded <= after
    ensures AllRecorded(after, size, docs, entries)
  {
    forall d | 0 <= d < |entries| ensures Recorded(after, size, docs, entries, d) {
      assert Recorded(decoded, size, docs, entries, d);
      if docs[d] != [] {
        AtStays(decoded, after, size, entries[d].slice, |Concat(docs, d)|);
      }
    }
  }

  /** Only the last decoded block may be short. */
  ghost predicate FullButLast(decoded: seq<seq<Byte>>, size: nat) {
    AllSized(decoded, size) && forall k :: 0 <= k < |decoded| - 1 ==> |decoded[k]| == size
  }

  /** A recorded document is placed, and the stream holds its bytes there. */
  lemma RecordedIsPlaced(decoded: seq<seq<Byte>>, size: nat, docs: seq<seq<Byte>>, entries: seq<Entry>, d: nat)
    requires FullButLast(decoded, size) && PackRead.Stream(decoded) == PackRead.Stream(docs)
    requires d < |entries| == |docs| && Recorded(decoded, size, docs, entries, d)
    ensures var lens, e := Sizes(decoded), entries[d];
      && Placed(lens, e.slice, e.size) && Holds(decoded, lens, e.slice, e.size)
      && DocumentBytes(decoded, lens, e.slice, e.size) == docs[d]
      && (e.size > 0 ==> Position(lens, e.slice) == |Concat(docs, d)|)
  {
    var lens, e := Sizes(decoded), entries[d];
    ConcatLength(decoded, lens, |lens|);
    if docs[d] != [] {
      PlacedInStream(decoded, size, docs, e, d);
    } else {
      assert PackRead.Stream(decoded)[0..0] == [];
    }
  }

  lemma PlacedInStream(decoded: seq<seq<Byte>>, size: nat, docs: seq<seq<Byte>>, e: Entry, d: nat)
    requires FullButLast(decoded, size) && PackRead.Stream(decoded) == PackRead.Stream(docs)
    requires d < |docs| && docs[d] != [] && e.size == |docs[d]| && At(decoded, size, e.slice, |Concat(docs, d)|)
    ensures var lens := Sizes(decoded);
      && Placed(lens, e.slice, e.size) && Holds(decoded, lens, e.slice, e.size)
      && DocumentBytes(decoded, lens, e.slice, e.size) == docs[d]
      && Position(lens, e.slice) == |Concat(docs, d)|
  {
    var lens, sizes := Sizes(decoded), Sizes(docs);
    hide Concat, Start, FullButLast;
    ConcatLength(decoded, lens, |lens|);
    ConcatLength(decoded, lens, e.slice.firstBlock);
    ConcatLength(docs, sizes, d);
    BlockInStream(docs, sizes, d, |docs|);
    assert Position(lens, e.slice) + e.size <= Start(lens, |lens|);
    InsideItsBlock(decoded, size, e.slice, e.size);
  }

  lemma InsideItsBlock(decoded: seq<seq<Byte>>, size: nat, slice: Slice, len: nat)
    requires FullButLast(decoded, size) && slice.firstBlock <= |decoded| && slice.blockOffset < size && len > 0
    requires var lens := Sizes(decoded); Position(lens, slice) + len <= Start(lens, |lens|)
    ensures slice.firstBlock < |decoded| && slice.blockOffset < |decoded[slice.firstBlock]|
  {
    var lens := Sizes(decoded);
    if slice.firstBlock == |lens| - 1 {
      assert Start(lens, |lens|) == Start(lens, slice.firstBlock) + lens[slice.firstBlock];
    }
  }

  lemma {:induction false} EntriesContiguous(decoded: seq<seq<Byte>>, size: nat, docs: seq<seq<Byte>>, entries: seq<Entry>, n: nat)
    requires FullButLast(decoded, size) && PackRead.Stream(decoded) == PackRead.Stream(docs)
    requires |entries| == |docs| && AllRecorded(decoded, size, docs, entries) && n <= |docs|
    ensures Contiguous(Sizes(decoded), entries[..n]) && Total(entries[..n]) == |Concat(docs, n)|
  {
    if n > 0 {
      EntriesContiguous(decoded, size, docs, entries, n - 1);
      assert Recorded(decoded, size, docs, entries, n - 1);
      RecordedIsPlaced(decoded, size, docs, entries, n - 1);
      hide Contiguous, Total, Recorded, AllRecorded, FullButLast, Placed;
      ContiguousNext(Sizes(decoded), entries, n - 1);
    }
  }

  /** The finished tables pass the format check. */
  lemma BuiltTablesTile(decoded: seq<seq<Byte>>, size: nat, docs: seq<seq<Byte>>, entries: seq<Entry>)
    requires FullButLast(decoded, size) && PackRead.Stream(decoded) == PackRead.Stream(docs)
    requires |entries| == |docs| && AllRecorded(decoded, size, docs, entries)
    ensures TileStream(Sizes(decoded), entries)
  {
    hide FullButLast, AllRecorded, Contiguous, Total;
    EntriesContiguous(decoded, size, docs, entries, |docs|);
    assert entries[..|docs|] == entries;
    ConcatLength(decoded, Sizes(decoded), |decoded|);
  }

  /** A segment's packs, block table and document table. */
  datatype Built = Built(packs: seq<seq<Byte>>, blocks: seq<PackBlock>, entries: seq<Entry>)

  /** Pack documents one after another, as `ChunkIngest::ingest` does. */
  method PackAll(z: Codec, blockBytes: nat, packBytes: nat, docs: seq<seq<Byte>>) returns (built: Built, ghost decoded: seq<seq<Byte>>)
    requires CodecOk(z) && blockBytes > 0
    ensures Stored(z, decoded, built.blocks, built.packs) && LaidOut(built.blocks) && EndsAt(built.blocks, built.packs)
    ensures FullButLast(decoded, blockBytes) && PackRead.Stream(decoded) == PackRead.Stream(docs)
    ensures |built.entries| == |docs| && AllRecorded(decoded, blockBytes, docs, built.entries)
    ensures Rotated(built.blocks, packBytes)
  {
    hide *;
    var builder := new PackBuilder(z, blockBytes, packBytes);
    var entries: seq<Entry> := [];
    NoBytes(docs);
    NothingRecorded(builder.decoded, blockBytes, docs);
    for d := 0 to |docs|
      invariant fresh(builder) && builder.Valid() && builder.blockBytes == blockBytes && builder.packBytes == packBytes && builder.z == z
      invariant builder.Stream() == Concat(docs, d)
      invariant |entries| == d && AllRecorded(builder.decoded, blockBytes, docs, entries)
    {
      builder.Facts();
      ghost var before, pending := builder.decoded, builder.block;
      PendingAt(before, pending, blockBytes);
      var slice := builder.Append(docs[d], |docs[d]|);
      assert docs[d][..|docs[d]|] == docs[d];
      ConcatNext(docs, d);
      assert slice.Ok?;
      RecordedNext(before, builder.decoded, blockBytes, docs, entries, Entry(slice.value, |docs[d]|));
      entries := entries + [Entry(slice.value, |docs[d]|)];
    }
    builder.Facts();
    ghost var before, last := builder.decoded, builder.block;
    var finished := builder.Finish();
    decoded := builder.decoded;
    LastMayBeShort(before, last, decoded, blockBytes);
    RecordedStays(before, decoded, blockBytes, docs, entries);
    StreamIsAll(docs);
    built := Built(finished.0, finished.1, entries);
  }

  lemma NothingRecorded(decoded: seq<seq<Byte>>, size: nat, docs: seq<seq<Byte>>)
    ensures AllRecorded(decoded, size, docs, [])
  {
  }

  lemma LastMayBeShort(before: seq<seq<Byte>>, last: seq<Byte>, decoded: seq<seq<Byte>>, size: nat)
    requires AllFull(before, size) && AllSized(decoded, size) && decoded == if last == [] then before else before + [last]
    ensures FullButLast(decoded, size) && before <= decoded
  {
  }

  lemma StreamIsAll(docs: seq<seq<Byte>>)
    ensures PackRead.Stream(docs) == Concat(docs, |docs|)
  {
  }

  lemma NoBytes(docs: seq<seq<Byte>>)
    ensures Concat(docs, 0) == []
  {
  }

  lemma ConcatNext(docs: seq<seq<Byte>>, d: nat)
    requires d < |docs|
    ensures Concat(docs, d + 1) == Concat(docs, d) + docs[d]
  {
  }

  lemma PendingAt(decoded: seq<seq<Byte>>, block: seq<Byte>, size: nat)
    requires |block| < size
    ensures At(decoded, size, Slice(|decoded|, |block|), |PackRead.Stream(decoded) + block|)
  {
  }

  // ---------------------------------------------------------------------------------------------
  // Reading a packed document back

  /** Read every block of the table. */
  method DecodeAll(z: Codec, packs: seq<seq<Byte>>, blocks: seq<PackBlock>) returns (r: Result<seq<seq<Byte>>>)
    ensures forall decoded :: Stored(z, decoded, blocks, packs) ==> r == Ok(decoded)
    ensures r.Ok? ==> Stored(z, r.value, blocks, packs)
  {
    var decoded: seq<seq<Byte>> := [];
    for k := 0 to |blocks|
      invariant |decoded| == k && forall i :: 0 <= i < k ==> ReadBlock(z, packs, blocks[i]) == Some(decoded[i])
    {
      var block := ReadBlock(z, packs, blocks[k]);
      if block.None? {
        assert forall other :: !Stored(z, other, blocks, packs);
        return Err;
      }
      decoded := decoded + [block.value];
    }
    forall other | Stored(z, other, blocks, packs) ensures decoded == other {
      StoredUnique(z, decoded, other, blocks, packs);
    }
    return Ok(decoded);
  }

  lemma StoredUnique(z: Codec, a: seq<seq<Byte>>, b: seq<seq<Byte>>, blocks: seq<PackBlock>, packs: seq<seq<Byte>>)
    requires Stored(z, a, blocks, packs) && Stored(z, b, blocks, packs)
    ensures a == b
  {
    hide ReadBlock;
    forall k | 0 <= k < |blocks| ensures a[k] == b[k] {
      assert ReadBlock(z, packs, blocks[k]) == Some(a[k]);
    }
  }

  function TableLens(blocks: seq<PackBlock>): seq<nat> {
    seq(|blocks|, k requires 0 <= k < |blocks| => blocks[k].decodedLen)
  }

  /** The block table's decoded lengths are the lengths of the stored blocks. */
  lemma TableSizes(z: Codec, decoded: seq<seq<Byte>>, blocks: seq<PackBlock>, packs: seq<seq<Byte>>)
    requires Stored(z, decoded, blocks, packs)
    ensures TableLens(blocks) == Sizes(decoded)
  {
    forall k | 0 <= k < |blocks| ensures blocks[k].decodedLen == |decoded[k]| {
      assert ReadBlock(z, packs, blocks[k]) == Some(decoded[k]);
    }
  }

  lemma SizedIsNotEmpty(decoded: seq<seq<Byte>>, size: nat)
    requires FullButLast(decoded, size)
    ensures NoEmptyBlock(Sizes(decoded))
  {
  }

  /**
   Round trip: pack any documents into shared blocks and packs of any size; the tables pass the
   check, and every range of every document reads back as the original bytes.
   */
  method PackAndRead(z: Codec, blockBytes: nat, packBytes: nat, docs: seq<seq<Byte>>, d: nat, from: nat, to: nat)
    returns (valid: bool, bytes: Result<seq<Byte>>)
    requires CodecOk(z) && blockBytes > 0 && d < |docs| && from <= to <= |docs[d]|
    ensures valid && bytes == Ok(docs[d][from..to])
  {
    hide *;
    ghost var decoded;
    var built: Built;
    built, decoded := PackAll(z, blockBytes, packBytes, docs);
    TableSizes(z, decoded, built.blocks, built.packs);
    var lens := TableLens(built.blocks);
    SizedIsNotEmpty(decoded, blockBytes);
    BuiltTablesTile(decoded, blockBytes, docs, built.entries);
    valid := ValidateDocuments(lens, built.entries);
    var content := DecodeAll(z, built.packs, built.blocks);
    var entry := built.entries[d];
    RecordedAt(decoded, blockBytes, docs, built.entries, d);
    RecordedIsPlaced(decoded, blockBytes, docs, built.entries, d);
    var parts := DocumentBlocks(lens, entry.slice, entry.size);
    bytes := ReadRange(content.value, lens, parts.value, from, to, entry.slice, entry.size);
  }

  lemma RecordedAt(decoded: seq<seq<Byte>>, size: nat, docs: seq<seq<Byte>>, entries: seq<Entry>, d: nat)
    requires AllRecorded(decoded, size, docs, entries) && d < |entries|
    ensures Recorded(decoded, size, docs, entries, d) && entries[d].size == |docs[d]|
  {
  }
}
