/**
 The sparse dictionary on disk: its index and footer, and lookups through them
 (`SparseTableWriter::finish`, `SparseTableIndex` in crates/index/src/sparse_table.rs, the sparse arm
 of `TermMap::get` in crates/index/src/terms.rs, `fetch_gram_values` in
 crates/index/src/remote_terms.rs).
 */
module SparseTable {
  import opened Wrappers
  import opened Slices
  import opened Bits
  import opened Varints
  import opened SparseEntries
  import opened SparseWriter

  const ENTRY_BYTES: nat := 48
  const FOOTER_BYTES: nat := 32

  lemma Sizes()
    ensures ENTRY_BYTES == 48 && FOOTER_BYTES == 32
  {
  }

  // ---------------------------------------------------------------------------------------------
  // Little-endian words

  /** `k` bytes of `n`, least significant first. */
  function LittleEndian(n: nat, k: nat): (r: seq<nat>)
    ensures |r| == k && Below(r, 256)
    decreases k
  {
    if k == 0 then [] else [n % 256] + LittleEndian(n / 256, k - 1)
  }

  function FromLittleEndian(bytes: seq<nat>): nat {
    if bytes == [] then 0 else bytes[0] + 256 * FromLittleEndian(bytes[1..])
  }

  lemma {:induction false} LittleEndianRoundTrip(n: nat, k: nat)
    requires n < Pow2(8 * k)
    ensures FromLittleEndian(LittleEndian(n, k)) == n
    decreases k
  {
    if k > 0 {
      Pow2Is();
      Pow2Add(8 * (k - 1), 8);
      assert 8 * (k - 1) + 8 == 8 * k;
      LittleEndianRoundTrip(n / 256, k - 1);
      assert LittleEndian(n, k)[1..] == LittleEndian(n / 256, k - 1);
    }
  }

  /** The word at `at`. */
  function Word(bytes: seq<nat>, at: nat): nat
    requires at + 8 <= |bytes|
  {
    FromLittleEndian(bytes[at..at + 8])
  }

  lemma WordIs(bytes: seq<nat>, at: nat, n: nat)
    requires n < U64_LIMIT && At(bytes, at, LittleEndian(n, 8))
    ensures at + 8 <= |bytes| && Word(bytes, at) == n
  {
    Powers();
    LittleEndianRoundTrip(n, 8);
    hide LittleEndian, FromLittleEndian, Pow2;
  }

  // ---------------------------------------------------------------------------------------------
  // Index and footer

  /** First hash, offset, digest: 48 bytes. */
  function RefBytes(ref: BlockRef): seq<nat> {
    LittleEndian(ref.firstHash, 8) + (LittleEndian(ref.offset, 8) + ref.hash)
  }

  function IndexBytes(index: seq<BlockRef>): seq<nat> {
    if index == [] then [] else IndexBytes(index[..|index| - 1]) + RefBytes(index[|index| - 1])
  }

  /** Entry count, block count, index offset, magic: 32 bytes. */
  function FooterBytes(entryCount: nat, blockCount: nat, indexOffset: nat): seq<nat> {
    LittleEndian(entryCount, 8) + (LittleEndian(blockCount, 8) + (LittleEndian(indexOffset, 8) + MAGIC))
  }

  ghost predicate RefsOk(index: seq<BlockRef>) {
    forall k :: 0 <= k < |index| ==> |index[k].hash| == 32 && index[k].firstHash < U64_LIMIT && index[k].offset < U64_LIMIT
  }

  lemma RefBytesIs(ref: BlockRef)
    requires |ref.hash| == 32 && ref.firstHash < U64_LIMIT && ref.offset < U64_LIMIT
    ensures |RefBytes(ref)| == ENTRY_BYTES
    ensures forall bytes, at: nat :: At(bytes, at, RefBytes(ref)) ==>
              && at + ENTRY_BYTES <= |bytes| && Word(bytes, at) == ref.firstHash && Word(bytes, at + 8) == ref.offset
              && bytes[at + 16..at + 48] == ref.hash
  {
    forall bytes, at: nat | At(bytes, at, RefBytes(ref))
      ensures at + ENTRY_BYTES <= |bytes| && Word(bytes, at) == ref.firstHash && Word(bytes, at + 8) == ref.offset
      ensures bytes[at + 16..at + 48] == ref.hash
    {
      ReadRef(bytes, at, ref);
    }
  }

  lemma ReadRef(bytes: seq<nat>, at: nat, ref: BlockRef)
    requires |ref.hash| == 32 && ref.firstHash < U64_LIMIT && ref.offset < U64_LIMIT && At(bytes, at, RefBytes(ref))
    ensures at + ENTRY_BYTES <= |bytes| && Word(bytes, at) == ref.firstHash && Word(bytes, at + 8) == ref.offset
    ensures bytes[at + 16..at + 48] == ref.hash
  {
    AtJoin(bytes, at, LittleEndian(ref.firstHash, 8), LittleEndian(ref.offset, 8) + ref.hash);
    AtJoin(bytes, at + 8, LittleEndian(ref.offset, 8), ref.hash);
    WordIs(bytes, at, ref.firstHash);
    WordIs(bytes, at + 8, ref.offset);
  }

  lemma {:induction false} IndexLength(index: seq<BlockRef>)
    requires RefsOk(index)
    ensures |IndexBytes(index)| == ENTRY_BYTES * |index|
  {
    if index != [] {
      IndexLength(index[..|index| - 1]);
    }
  }

  lemma {:induction false} IndexAt(index: seq<BlockRef>, k: nat)
    requires RefsOk(index) && k < |index|
    ensures At(IndexBytes(index), ENTRY_BYTES * k, RefBytes(index[k]))
  {
    var n := |index| - 1;
    IndexLength(index[..n]);
    var front := IndexBytes(index[..n]);
    if k == n {
      AtEnd(front, RefBytes(index[n]));
    } else {
      IndexAt(index[..n], k);
      AtGrows(front, RefBytes(index[n]), ENTRY_BYTES * k, RefBytes(index[k]));
    }
  }

  lemma AtEnd(x: seq<nat>, y: seq<nat>)
    ensures At(x + y, |x|, y)
  {
  }

  lemma AtGrows(x: seq<nat>, more: seq<nat>, at: nat, y: seq<nat>)
    requires At(x, at, y)
    ensures At(x + more, at, y)
  {
    assert (x + more)[at..at + |y|] == x[at..at + |y|];
  }

  lemma AtShift(x: seq<nat>, before: seq<nat>, at: nat, y: seq<nat>)
    requires At(x, at, y)
    ensures At(before + x, |before| + at, y)
  {
    assert (before + x)[|before| + at..|before| + at + |y|] == x[at..at + |y|];
  }

  /** The whole table of a set of flushed blocks. */
  function TableBytes(chunks: seq<seq<Term>>, index: seq<BlockRef>): seq<nat>
    requires ChunksOk(chunks)
  {
    Body(chunks) + (IndexBytes(index) + FooterBytes(|Flatten(chunks)|, |index|, |Body(chunks)|))
  }

  /** `table` is the finished table of `chunks`, and small enough for 64-bit offsets. */
  ghost predicate IsTable(digest: seq<nat> -> seq<nat>, table: seq<nat>, chunks: seq<seq<Term>>, index: seq<BlockRef>) {
    && DigestOk(digest) && ChunksOk(chunks) && IndexOk(chunks, digest, index) && TermsOk(Flatten(chunks))
    && table == TableBytes(chunks, index) && |table| < U64_LIMIT
  }

  /** `finish`: flush, then append the index and the footer. */
  method Finish(w: SparseTableWriter) returns (table: seq<nat>)
    requires w.Valid()
    modifies w
    ensures w.Valid() && Flatten(w.chunks) == old(w.Inserted())
    ensures old(Filled(w.chunks)) ==> Filled(old(w.chunks)) && old(w.chunks) <= w.chunks && |w.chunks| <= |old(w.chunks)| + 1
    ensures ChunksOk(w.chunks) && table == TableBytes(w.chunks, w.index)
    ensures |table| < U64_LIMIT ==> IsTable(w.digest, table, w.chunks, w.index)
  {
    hide *;
    ValidIsConsistent(w);
    w.FlushBlock();
    FlushedFacts(w);
    table := AppendIndex(w.out, w.index);
    Associative(w.out, IndexBytes(w.index), FooterBytes(w.entryCount, |w.index|, w.written));
    table := table + FooterBytes(w.entryCount, |w.index|, w.written);
    TableIs(w.digest, w.chunks, w.index, table);
  }

  method AppendIndex(out: seq<nat>, index: seq<BlockRef>) returns (r: seq<nat>)
    ensures r == out + IndexBytes(index)
  {
    hide *;
    r := out;
    NoIndexBytes(out);
    WholeIndex(index);
    for k := 0 to |index|
      invariant r == out + IndexBytes(index[..k])
    {
      TakeNext(index, k);
      IndexBytesNext(index[..k], index[k]);
      Associative(out, IndexBytes(index[..k]), RefBytes(index[k]));
      r := r + RefBytes(index[k]);
    }
  }

  lemma ValidIsConsistent(w: SparseTableWriter)
    requires w.Valid()
    ensures w.Consistent() && |w.block| < BLOCK_BYTES
  {
  }

  lemma FlushedFacts(w: SparseTableWriter)
    requires w.Valid() && w.block == []
    ensures ChunksOk(w.chunks) && w.out == Body(w.chunks) && w.written == |w.out| && w.entryCount == |Flatten(w.chunks)|
    ensures Flatten(w.chunks) == w.Inserted() && IndexOk(w.chunks, w.digest, w.index) && DigestOk(w.digest) && TermsOk(Flatten(w.chunks))
  {
    CurrentNonempty(w.block, w.current);
    assert Flatten(w.chunks) + [] == Flatten(w.chunks);
  }

  lemma NoIndexBytes(out: seq<nat>)
    ensures forall index: seq<BlockRef> :: out == out + IndexBytes(index[..0])
  {
    assert out + [] == out;
  }

  lemma IndexBytesNext(index: seq<BlockRef>, ref: BlockRef)
    ensures IndexBytes(index + [ref]) == IndexBytes(index) + RefBytes(ref)
  {
    assert (index + [ref])[..|index|] == index;
  }

  lemma WholeIndex(index: seq<BlockRef>)
    ensures index[..|index|] == index
  {
  }

  lemma TableIs(digest: seq<nat> -> seq<nat>, chunks: seq<seq<Term>>, index: seq<BlockRef>, table: seq<nat>)
    requires ChunksOk(chunks) && IndexOk(chunks, digest, index) && DigestOk(digest) && TermsOk(Flatten(chunks))
    requires table == Body(chunks) + (IndexBytes(index) + FooterBytes(|Flatten(chunks)|, |index|, |Body(chunks)|))
    ensures table == TableBytes(chunks, index)
    ensures |table| < U64_LIMIT ==> IsTable(digest, table, chunks, index)
  {
    hide Body, Flatten, IndexBytes, FooterBytes, ChunksOk, IndexOk, DigestOk, TermsOk;
  }

  // ---------------------------------------------------------------------------------------------
  // Parsing

  datatype Parsed = Parsed(entryCount: nat, blocks: seq<BlockRef>)

  /** Where block `k` ends: at the next block, or at the index. */
  function NextOffset(blocks: seq<BlockRef>, k: nat, indexOffset: nat): nat
    requires k < |blocks|
  {
    if k + 1 < |blocks| then blocks[k + 1].offset else indexOffset
  }

  /** Blocks follow one another from the magic to the index, none too short or too long. */
  ghost predicate Chained(blocks: seq<BlockRef>, indexOffset: nat) {
    && (forall k :: 0 <= k < |blocks| ==> Linked(blocks, k, indexOffset))
    && (blocks != [] ==> blocks[0].offset == 8)
  }

  predicate Linked(blocks: seq<BlockRef>, k: nat, indexOffset: nat)
    requires k < |blocks|
  {
    blocks[k].offset + blocks[k].len == NextOffset(blocks, k, indexOffset) && 8 < blocks[k].len <= BLOCK_BYTES + 32
  }

  ghost predicate FirstsAscend(blocks: seq<BlockRef>) {
    forall j, k :: 0 <= j < k < |blocks| ==> blocks[j].firstHash < blocks[k].firstHash
  }

  lemma TableFacts(digest: seq<nat> -> seq<nat>, table: seq<nat>, chunks: seq<seq<Term>>, index: seq<BlockRef>)
    requires IsTable(digest, table, chunks, index)
    ensures ChunksOk(chunks) && TermsOk(Flatten(chunks)) && |index| == |chunks|
    ensures forall k :: 0 <= k < |index| ==> index[k] == RefOf(chunks, digest, k)
    ensures table == TableBytes(chunks, index) && |table| < U64_LIMIT && DigestOk(digest)
  {
  }

  lemma IndexChained(digest: seq<nat> -> seq<nat>, table: seq<nat>, chunks: seq<seq<Term>>, index: seq<BlockRef>)
    requires IsTable(digest, table, chunks, index)
    ensures ChunksOk(chunks) && Chained(index, |Body(chunks)|)
  {
    hide *;
    TableFacts(digest, table, chunks, index);
    BodyLength(chunks);
    forall k | 0 <= k < |index| ensures Linked(index, k, |Body(chunks)|) {
      LinkedAt(chunks, digest, index, k);
    }
    FirstStart(chunks, digest);
    ChainedIs(index, |Body(chunks)|);
  }

  lemma FirstStart(chunks: seq<seq<Term>>, digest: seq<nat> -> seq<nat>)
    requires ChunksOk(chunks)
    ensures ChunkStart(chunks, 0) == 8 && (chunks != [] ==> RefOf(chunks, digest, 0).offset == 8)
  {
  }

  lemma ChainedIs(blocks: seq<BlockRef>, indexOffset: nat)
    requires forall k :: 0 <= k < |blocks| ==> Linked(blocks, k, indexOffset)
    requires blocks != [] ==> blocks[0].offset == 8
    ensures Chained(blocks, indexOffset)
  {
  }

  lemma LinkedAt(chunks: seq<seq<Term>>, digest: seq<nat> -> seq<nat>, index: seq<BlockRef>, k: nat)
    requires ChunksOk(chunks) && |index| == |chunks| && k < |index|
    requires forall i :: 0 <= i < |index| ==> index[i] == RefOf(chunks, digest, i)
    ensures Linked(index, k, ChunkStart(chunks, |chunks|))
  {
    hide *;
    RefEnds(chunks, digest, k);
    if k + 1 < |index| {
      RefEnds(chunks, digest, k + 1);
    }
    LinkedIs(index, k, ChunkStart(chunks, |chunks|));
  }

  lemma LinkedIs(blocks: seq<BlockRef>, k: nat, indexOffset: nat)
    requires k < |blocks| && 8 < blocks[k].len <= BLOCK_BYTES + 32
    requires blocks[k].offset + blocks[k].len == if k + 1 < |blocks| then blocks[k + 1].offset else indexOffset
    ensures Linked(blocks, k, indexOffset)
  {
  }

  lemma RefEnds(chunks: seq<seq<Term>>, digest: seq<nat> -> seq<nat>, k: nat)
    requires ChunksOk(chunks) && k < |chunks|
    ensures RefOf(chunks, digest, k).offset == ChunkStart(chunks, k)
    ensures RefOf(chunks, digest, k).offset + RefOf(chunks, digest, k).len == ChunkStart(chunks, k + 1)
    ensures 8 < RefOf(chunks, digest, k).len <= BLOCK_BYTES + 32
  {
    hide BlockBytes, TermsOk;
  }

  lemma FlattenNext(chunks: seq<seq<Term>>)
    requires chunks != []
    ensures Flatten(chunks) == Flatten(chunks[..|chunks| - 1]) + chunks[|chunks| - 1]
  {
  }

  lemma JoinIndex(x: seq<Term>, y: seq<Term>, b: nat)
    ensures forall i :: 0 <= i < |x| ==> (x + y)[i] == x[i]
    ensures b < |y| ==> |x| + b < |x + y| && (x + y)[|x| + b] == y[b]
  {
  }

  /** Every term of a chunk is among the inserts. */
  lemma {:induction false} FlattenHas(chunks: seq<seq<Term>>, j: nat, a: nat) returns (i: nat)
    requires j < |chunks| && a < |chunks[j]|
    ensures i < |Flatten(chunks)| && Flatten(chunks)[i] == chunks[j][a]
  {
    hide *;
    var n := |chunks| - 1;
    FlattenNext(chunks);
    JoinIndex(Flatten(chunks[..n]), chunks[n], a);
    if j == n {
      i := |Flatten(chunks[..n])| + a;
    } else {
      i := FlattenHas(chunks[..n], j, a);
    }
  }

  lemma {:induction false} FlattenFrom(chunks: seq<seq<Term>>, i: nat) returns (j: nat, a: nat)
    requires i < |Flatten(chunks)|
    ensures j < |chunks| && a < |chunks[j]| && Flatten(chunks)[i] == chunks[j][a]
    decreases |chunks|
  {
    NonemptyFlatten(chunks);
    hide *;
    var n := |chunks| - 1;
    FlattenNext(chunks);
    var front := Flatten(chunks[..n]);
    if i < |front| {
      JoinIndex(front, chunks[n], 0);
      j, a := FlattenFrom(chunks[..n], i);
    } else {
      j, a := n, i - |front|;
      JoinIndex(front, chunks[n], a);
    }
  }

  lemma NonemptyFlatten(chunks: seq<seq<Term>>)
    ensures |Flatten(chunks)| > 0 ==> chunks != []
  {
  }

  lemma HashesAscend(ts: seq<Term>, i: nat, j: nat)
    requires TermsOk(ts) && i < j < |ts|
    ensures ts[i].hash < ts[j].hash
  {
  }

  lemma TermsPrefix(x: seq<Term>, y: seq<Term>)
    requires TermsOk(x + y)
    ensures TermsOk(x)
  {
    assert forall i :: 0 <= i < |x| ==> (x + y)[i] == x[i];
  }

  lemma ChunksPrefix(chunks: seq<seq<Term>>, n: nat)
    requires ChunksOk(chunks) && n <= |chunks|
    ensures ChunksOk(chunks[..n])
  {
  }

  /** Terms of an earlier chunk come before those of a later one. */
  lemma {:induction false} ChunksAscend(chunks: seq<seq<Term>>, j: nat, k: nat, a: nat, b: nat)
    requires TermsOk(Flatten(chunks)) && j < k < |chunks| && a < |chunks[j]| && b < |chunks[k]|
    ensures chunks[j][a].hash < chunks[k][b].hash
    decreases |chunks|
  {
    hide *;
    var n := |chunks| - 1;
    var front := Flatten(chunks[..n]);
    FlattenNext(chunks);
    if k < n {
      TermsPrefix(front, chunks[n]);
      ChunksAscend(chunks[..n], j, k, a, b);
    } else {
      var i := FlattenHas(chunks[..n], j, a);
      JoinIndex(front, chunks[n], b);
      HashesAscend(Flatten(chunks), i, |front| + b);
    }
  }

  lemma IndexAscends(digest: seq<nat> -> seq<nat>, table: seq<nat>, chunks: seq<seq<Term>>, index: seq<BlockRef>)
    requires IsTable(digest, table, chunks, index)
    ensures FirstsAscend(index)
  {
    hide *;
    TableFacts(digest, table, chunks, index);
    forall j, k | 0 <= j < k < |index| ensures index[j].firstHash < index[k].firstHash {
      ChunkNonempty(chunks, digest, j);
      ChunkNonempty(chunks, digest, k);
      ChunksAscend(chunks, j, k, 0, 0);
    }
    FirstsAre(index);
  }

  lemma ChunkNonempty(chunks: seq<seq<Term>>, digest: seq<nat> -> seq<nat>, k: nat)
    requires ChunksOk(chunks) && k < |chunks|
    ensures |chunks[k]| > 0 && RefOf(chunks, digest, k).firstHash == chunks[k][0].hash && TermsOk(chunks[k])
  {
  }

  lemma FirstsAre(blocks: seq<BlockRef>)
    requires forall j, k :: 0 <= j < k < |blocks| ==> blocks[j].firstHash < blocks[k].firstHash
    ensures FirstsAscend(blocks)
  {
  }

  /** The tail a reader fetched: the end of the table, with at least the index and the footer. */
  ghost predicate IsTail(table: seq<nat>, tail: seq<nat>, index: seq<BlockRef>) {
    FOOTER_BYTES + ENTRY_BYTES * |index| <= |tail| <= |table| && tail == table[|table| - |tail|..]
  }

  /** What the reader knows when the bytes are those of a written table. */
  ghost predicate Written(digest: seq<nat> -> seq<nat>, table: seq<nat>, chunks: seq<seq<Term>>, index: seq<BlockRef>, tableLen: nat, tail: seq<nat>) {
    IsTable(digest, table, chunks, index) && tableLen == |table| && IsTail(table, tail, index)
  }

  lemma TailSplits(x: seq<nat>, y: seq<nat>, tail: seq<nat>)
    requires |y| <= |tail| <= |x + y| && tail == (x + y)[|x + y| - |tail|..]
    ensures At(tail, |tail| - |y|, y)
  {
    assert tail[|tail| - |y|..] == y;
  }

  /** Footer and index as they lie in the tail. */
  lemma TailHolds(digest: seq<nat> -> seq<nat>, table: seq<nat>, chunks: seq<seq<Term>>, index: seq<BlockRef>, tableLen: nat, tail: seq<nat>)
    requires Written(digest, table, chunks, index, tableLen, tail)
    ensures ChunksOk(chunks) && RefsOk(index)
    ensures |tail| >= FOOTER_BYTES + ENTRY_BYTES * |index| && At(tail, |tail| - FOOTER_BYTES - ENTRY_BYTES * |index|, IndexBytes(index))
    ensures At(tail, |tail| - FOOTER_BYTES, FooterBytes(|Flatten(chunks)|, |index|, |Body(chunks)|))
    ensures tableLen == |Body(chunks)| + ENTRY_BYTES * |index| + FOOTER_BYTES && tableLen < U64_LIMIT
  {
    hide *;
    Sizes();
    WrittenFacts(digest, table, chunks, index, tableLen, tail);
    TableFacts(digest, table, chunks, index);
    RefsAreOk(digest, table, chunks, index);
    IndexLength(index);
    var footer := FooterBytes(|Flatten(chunks)|, |index|, |Body(chunks)|);
    FooterLength(|Flatten(chunks)|, |index|, |Body(chunks)|);
    TableBytesIs(chunks, index);
    LengthOfJoin(Body(chunks), IndexBytes(index), footer);
    TailSplits(Body(chunks), IndexBytes(index) + footer, tail);
    AtJoin(tail, |tail| - |IndexBytes(index) + footer|, IndexBytes(index), footer);
  }

  lemma LengthOfJoin(a: seq<nat>, b: seq<nat>, c: seq<nat>)
    ensures |a + (b + c)| == |a| + |b| + |c| && |b + c| == |b| + |c|
  {
  }

  lemma WrittenFacts(digest: seq<nat> -> seq<nat>, table: seq<nat>, chunks: seq<seq<Term>>, index: seq<BlockRef>, tableLen: nat, tail: seq<nat>)
    requires Written(digest, table, chunks, index, tableLen, tail)
    ensures IsTable(digest, table, chunks, index) && tableLen == |table|
    ensures FOOTER_BYTES + ENTRY_BYTES * |index| <= |tail| <= |table| && tail == table[|table| - |tail|..]
  {
  }

  lemma TableBytesIs(chunks: seq<seq<Term>>, index: seq<BlockRef>)
    requires ChunksOk(chunks)
    ensures TableBytes(chunks, index) == Body(chunks) + (IndexBytes(index) + FooterBytes(|Flatten(chunks)|, |index|, |Body(chunks)|))
  {
  }

  lemma FooterLength(entryCount: nat, blockCount: nat, indexOffset: nat)
    ensures |FooterBytes(entryCount, blockCount, indexOffset)| == FOOTER_BYTES
  {
  }

  lemma RefsAreOk(digest: seq<nat> -> seq<nat>, table: seq<nat>, chunks: seq<seq<Term>>, index: seq<BlockRef>)
    requires IsTable(digest, table, chunks, index)
    ensures RefsOk(index)
  {
    hide *;
    TableFacts(digest, table, chunks, index);
    TableBytesIs(chunks, index);
    BodyLength(chunks);
    forall k | 0 <= k < |index| ensures |index[k].hash| == 32 && index[k].firstHash < U64_LIMIT && index[k].offset < U64_LIMIT {
      RefFits(chunks, digest, k);
      StartsGrow(chunks, k, |chunks|);
    }
    RefsAre(index);
  }

  lemma RefsAre(index: seq<BlockRef>)
    requires forall k :: 0 <= k < |index| ==> |index[k].hash| == 32 && index[k].firstHash < U64_LIMIT && index[k].offset < U64_LIMIT
    ensures RefsOk(index)
  {
  }

  lemma RefFits(chunks: seq<seq<Term>>, digest: seq<nat> -> seq<nat>, k: nat)
    requires ChunksOk(chunks) && DigestOk(digest) && k < |chunks|
    ensures |RefOf(chunks, digest, k).hash| == 32 && RefOf(chunks, digest, k).firstHash < U64_LIMIT
    ensures RefOf(chunks, digest, k).offset == ChunkStart(chunks, k)
  {
  }

  lemma {:induction false} StartsGrow(chunks: seq<seq<Term>>, j: nat, k: nat)
    requires ChunksOk(chunks) && j <= k <= |chunks|
    ensures ChunkStart(chunks, j) <= ChunkStart(chunks, k)
    decreases k
  {
    hide BlockBytes, TermsOk;
    if j < k {
      StartsGrow(chunks, j, k - 1);
    }
  }

  /** The three words and the magic of a footer. */
  lemma ReadFooter(tail: seq<nat>, at: nat, entryCount: nat, blockCount: nat, indexOffset: nat)
    requires At(tail, at, FooterBytes(entryCount, blockCount, indexOffset))
    requires entryCount < U64_LIMIT && blockCount < U64_LIMIT && indexOffset < U64_LIMIT
    ensures at + FOOTER_BYTES <= |tail| && Word(tail, at) == entryCount && Word(tail, at + 8) == blockCount
    ensures Word(tail, at + 16) == indexOffset && tail[at + 24..at + 32] == MAGIC
  {
    FooterLength(entryCount, blockCount, indexOffset);
    FooterParts(tail, at, entryCount, blockCount, indexOffset);
    hide *;
    Sizes();
    WordIs(tail, at, entryCount);
    WordIs(tail, at + 8, blockCount);
    WordIs(tail, at + 16, indexOffset);
    AtIs(tail, at + 24, MAGIC);
  }

  lemma AtIs(block: seq<nat>, cursor: nat, x: seq<nat>)
    requires At(block, cursor, x)
    ensures cursor + |x| <= |block| && block[cursor..cursor + |x|] == x
  {
  }

  lemma FooterParts(tail: seq<nat>, at: nat, entryCount: nat, blockCount: nat, indexOffset: nat)
    requires At(tail, at, FooterBytes(entryCount, blockCount, indexOffset))
    ensures At(tail, at, LittleEndian(entryCount, 8)) && At(tail, at + 8, LittleEndian(blockCount, 8))
    ensures At(tail, at + 16, LittleEndian(indexOffset, 8)) && At(tail, at + 24, MAGIC)
  {
    hide At, LittleEndian;
    var c := LittleEndian(indexOffset, 8) + MAGIC;
    AtJoin(tail, at, LittleEndian(entryCount, 8), LittleEndian(blockCount, 8) + c);
    AtJoin(tail, at + 8, LittleEndian(blockCount, 8), c);
    AtJoin(tail, at + 16, LittleEndian(indexOffset, 8), MAGIC);
  }

  // ---------------------------------------------------------------------------------------------
  // The parser

  /** The offset of block `i` as recorded, and of the index after the last. */
  function RawOffset(bytes: seq<nat>, n: nat, indexOffset: nat, i: nat): nat
    requires |bytes| == ENTRY_BYTES * n && i <= n
  {
    if i < n then Word(bytes, ENTRY_BYTES * i + 8) else indexOffset
  }

  /** Block `i` is what its index entry and the next offset say. */
  ghost predicate ParsedAt(bytes: seq<nat>, n: nat, indexOffset: nat, ref: BlockRef, i: nat)
    requires |bytes| == ENTRY_BYTES * n && i < n
  {
    && ref.firstHash == Word(bytes, ENTRY_BYTES * i) && ref.offset == RawOffset(bytes, n, indexOffset, i)
    && ref.hash == bytes[ENTRY_BYTES * i + 16..ENTRY_BYTES * i + 48]
    && ref.offset + ref.len == RawOffset(bytes, n, indexOffset, i + 1) && 8 < ref.len <= BLOCK_BYTES + 32
  }

  /** The bytes are the index of a chained block list, read back entry by entry. */
  lemma IndexParses(bytes: seq<nat>, index: seq<BlockRef>, indexOffset: nat, i: nat)
    requires RefsOk(index) && bytes == IndexBytes(index) && Chained(index, indexOffset) && i < |index|
    ensures |bytes| == ENTRY_BYTES * |index| && ParsedAt(bytes, |index|, indexOffset, index[i], i)
    ensures i == 0 ==> RawOffset(bytes, |index|, indexOffset, 0) == 8
  {
    hide *;
    Sizes();
    IndexLength(index);
    IndexAt(index, i);
    RefAt(index, i);
    ReadRef(bytes, ENTRY_BYTES * i, index[i]);
    if i + 1 < |index| {
      IndexAt(index, i + 1);
      RefAt(index, i + 1);
      ReadRef(bytes, ENTRY_BYTES * (i + 1), index[i + 1]);
    }
    ChainedAt(index, indexOffset, i);
    ParsedIs(bytes, |index|, indexOffset, index, i);
  }

  lemma RefAt(index: seq<BlockRef>, k: nat)
    requires RefsOk(index) && k < |index|
    ensures |index[k].hash| == 32 && index[k].firstHash < U64_LIMIT && index[k].offset < U64_LIMIT
  {
  }

  lemma ChainedAt(blocks: seq<BlockRef>, indexOffset: nat, k: nat)
    requires Chained(blocks, indexOffset) && k < |blocks|
    ensures blocks[k].offset + blocks[k].len == if k + 1 < |blocks| then blocks[k + 1].offset else indexOffset
    ensures 8 < blocks[k].len <= BLOCK_BYTES + 32 && (k == 0 ==> blocks[k].offset == 8)
  {
    assert Linked(blocks, k, indexOffset);
  }

  lemma ParsedIs(bytes: seq<nat>, n: nat, indexOffset: nat, index: seq<BlockRef>, i: nat)
    requires |bytes| == ENTRY_BYTES * n && i < n == |index|
    requires Word(bytes, ENTRY_BYTES * i) == index[i].firstHash && Word(bytes, ENTRY_BYTES * i + 8) == index[i].offset
    requires bytes[ENTRY_BYTES * i + 16..ENTRY_BYTES * i + 48] == index[i].hash
    requires i + 1 < n ==> Word(bytes, ENTRY_BYTES * (i + 1) + 8) == index[i + 1].offset
    requires index[i].offset + index[i].len == if i + 1 < n then index[i + 1].offset else indexOffset
    requires 8 < index[i].len <= BLOCK_BYTES + 32
    ensures ParsedAt(bytes, n, indexOffset, index[i], i)
    ensures i == 0 ==> RawOffset(bytes, n, indexOffset, 0) == index[0].offset
  {
    hide Word;
  }

  /** One index entry. */
  method ParseBlock(bytes: seq<nat>, n: nat, indexOffset: nat, k: nat, expected: nat) returns (r: Result<BlockRef>)
    requires |bytes| == ENTRY_BYTES * n && k < n
    ensures r.Ok? ==> ParsedAt(bytes, n, indexOffset, r.value, k) && r.value.offset == expected
    ensures r.Err? ==> expected != RawOffset(bytes, n, indexOffset, k) || forall ref :: !ParsedAt(bytes, n, indexOffset, ref, k)
  {
    hide Word;
    var at := ENTRY_BYTES * k;
    var firstHash, offset := Word(bytes, at), Word(bytes, at + 8);
    if offset != expected {
      return Err;
    }
    var next := if k + 1 < n then Word(bytes, ENTRY_BYTES * (k + 1) + 8) else indexOffset;
    if next < offset {
      return Err;
    }
    var len := next - offset;
    if len <= 8 || len > BLOCK_BYTES + 32 {
      return Err;
    }
    return Ok(BlockRef(firstHash, offset, len, bytes[at + 16..at + 48]));
  }

  lemma ParsedUnique(bytes: seq<nat>, n: nat, indexOffset: nat, a: BlockRef, b: BlockRef, i: nat)
    requires |bytes| == ENTRY_BYTES * n && i < n && ParsedAt(bytes, n, indexOffset, a, i) && ParsedAt(bytes, n, indexOffset, b, i)
    ensures a == b
  {
  }

  /** The bytes are the index entries of `blocks`, the first of which begins right behind the magic. */
  ghost predicate IsIndex(bytes: seq<nat>, n: nat, indexOffset: nat, blocks: seq<BlockRef>)
    requires |bytes| == ENTRY_BYTES * n
  {
    && |blocks| == n && (forall i :: 0 <= i < n ==> ParsedAt(bytes, n, indexOffset, blocks[i], i))
    && (n > 0 ==> RawOffset(bytes, n, indexOffset, 0) == 8)
  }

  /** The blocks so far, and that they are those of `index` when the bytes are its bytes. */
  ghost predicate ParsedTo(bytes: seq<nat>, n: nat, indexOffset: nat, blocks: seq<BlockRef>, expected: nat)
    requires |bytes| == ENTRY_BYTES * n
  {
    && |blocks| <= n && (forall i :: 0 <= i < |blocks| ==> ParsedAt(bytes, n, indexOffset, blocks[i], i))
    && expected == (if |blocks| == 0 then 8 else RawOffset(bytes, n, indexOffset, |blocks|))
    && (blocks != [] ==> blocks[0].offset == 8)
  }

  method ParseBlocks(bytes: seq<nat>, n: nat, indexOffset: nat, ghost known: bool, ghost index: seq<BlockRef>) returns (r: Result<seq<BlockRef>>)
    requires |bytes| == ENTRY_BYTES * n
    requires known ==> n == |index| && RefsOk(index) && bytes == IndexBytes(index) && Chained(index, indexOffset)
    ensures r.Ok? ==> |r.value| == n && Chained(r.value, indexOffset) && IsIndex(bytes, n, indexOffset, r.value)
    ensures r.Err? ==> forall all :: !IsIndex(bytes, n, indexOffset, all)
    ensures known ==> r == Ok(index)
  {
    hide *;
    Sizes();
    var blocks: seq<BlockRef>, expected: nat := [], 8;
    NothingParsed(bytes, n, indexOffset);
    while |blocks| < n
      invariant ParsedTo(bytes, n, indexOffset, blocks, expected) && |blocks| <= n
      invariant known ==> blocks == index[..|blocks|]
      decreases n - |blocks|
    {
      ghost var k := |blocks|;
      ExpectedIs(bytes, n, indexOffset, blocks, expected);
      if known {
        IndexParses(bytes, index, indexOffset, k);
        TakeNext(index, k);
      }
      var ref := ParseBlock(bytes, n, indexOffset, |blocks|, expected);
      if ref.Err? {
        NoIndex(bytes, n, indexOffset, k, expected);
        return Err;
      }
      if known {
        ParsedUnique(bytes, n, indexOffset, ref.value, index[k], k);
      }
      ParsedNext(bytes, n, indexOffset, blocks, expected, ref.value);
      expected := ref.value.offset + ref.value.len;
      blocks := blocks + [ref.value];
    }
    if known {
      WholeIndex(index);
    }
    ParsedIsChained(bytes, n, indexOffset, blocks, expected);
    return Ok(blocks);
  }

  lemma NothingParsed(bytes: seq<nat>, n: nat, indexOffset: nat)
    requires |bytes| == ENTRY_BYTES * n
    ensures ParsedTo(bytes, n, indexOffset, [], 8) && forall index: seq<BlockRef> :: index[..0] == []
  {
  }

  lemma ExpectedIs(bytes: seq<nat>, n: nat, indexOffset: nat, blocks: seq<BlockRef>, expected: nat)
    requires |bytes| == ENTRY_BYTES * n && ParsedTo(bytes, n, indexOffset, blocks, expected) && |blocks| < n
    ensures expected == if |blocks| == 0 then 8 else RawOffset(bytes, n, indexOffset, |blocks|)
  {
  }

  /** One unreadable entry, or a first block in the wrong place, and there is no index. */
  lemma NoIndex(bytes: seq<nat>, n: nat, indexOffset: nat, k: nat, expected: nat)
    requires |bytes| == ENTRY_BYTES * n && k < n && expected == if k == 0 then 8 else RawOffset(bytes, n, indexOffset, k)
    requires expected != RawOffset(bytes, n, indexOffset, k) || forall ref :: !ParsedAt(bytes, n, indexOffset, ref, k)
    ensures forall all :: !IsIndex(bytes, n, indexOffset, all)
  {
    hide RawOffset, ParsedAt;
    forall all | IsIndex(bytes, n, indexOffset, all) ensures false {
      EntryOfIndex(bytes, n, indexOffset, all, k);
    }
  }

  lemma EntryOfIndex(bytes: seq<nat>, n: nat, indexOffset: nat, all: seq<BlockRef>, k: nat)
    requires |bytes| == ENTRY_BYTES * n && k < n && IsIndex(bytes, n, indexOffset, all)
    ensures ParsedAt(bytes, n, indexOffset, all[k], k) && (k == 0 ==> RawOffset(bytes, n, indexOffset, 0) == 8)
  {
  }

  lemma IndexUnique(bytes: seq<nat>, n: nat, indexOffset: nat, a: seq<BlockRef>, b: seq<BlockRef>)
    requires |bytes| == ENTRY_BYTES * n && IsIndex(bytes, n, indexOffset, a) && IsIndex(bytes, n, indexOffset, b)
    ensures a == b
  {
    hide ParsedAt, RawOffset;
    forall i | 0 <= i < n ensures a[i] == b[i] {
      ParsedUnique(bytes, n, indexOffset, a[i], b[i], i);
    }
  }

  lemma ParsedNext(bytes: seq<nat>, n: nat, indexOffset: nat, blocks: seq<BlockRef>, expected: nat, ref: BlockRef)
    requires |bytes| == ENTRY_BYTES * n && ParsedTo(bytes, n, indexOffset, blocks, expected) && |blocks| < n
    requires ParsedAt(bytes, n, indexOffset, ref, |blocks|) && ref.offset == expected
    ensures ParsedTo(bytes, n, indexOffset, blocks + [ref], ref.offset + ref.len)
  {
    hide Word, RawOffset;
  }

  lemma ParsedIsChained(bytes: seq<nat>, n: nat, indexOffset: nat, blocks: seq<BlockRef>, expected: nat)
    requires |bytes| == ENTRY_BYTES * n && ParsedTo(bytes, n, indexOffset, blocks, expected) && |blocks| == n
    ensures Chained(blocks, indexOffset) && IsIndex(bytes, n, indexOffset, blocks)
  {
    hide Word;
    forall k | 0 <= k < n ensures Linked(blocks, k, indexOffset) {
      assert ParsedAt(bytes, n, indexOffset, blocks[k], k);
      assert k + 1 < n ==> ParsedAt(bytes, n, indexOffset, blocks[k + 1], k + 1);
    }
  }

  method CheckAscending(blocks: seq<BlockRef>) returns (ok: bool)
    ensures ok <==> FirstsAscend(blocks)
  {
    var k := 1;
    while k < |blocks|
      invariant 1 <= k && forall i, j :: 0 <= i < j < k && j < |blocks| ==> blocks[i].firstHash < blocks[j].firstHash
    {
      if blocks[k - 1].firstHash >= blocks[k].firstHash {
        return false;
      }
      k := k + 1;
    }
    return true;
  }

  /** Where the footer says the index begins. */
  function IndexOffset(tail: seq<nat>): nat
    requires |tail| >= FOOTER_BYTES
  {
    Word(tail, |tail| - FOOTER_BYTES + 16)
  }

  /** The tail has a footer with the magic, and the index the footer describes ends right before it. */
  predicate Framed(tableLen: nat, tail: seq<nat>, p: Parsed) {
    && 8 + FOOTER_BYTES <= tableLen && FOOTER_BYTES <= |tail| <= tableLen
    && var at := |tail| - FOOTER_BYTES;
    && tail[at + 24..at + 32] == MAGIC && Word(tail, at) == p.entryCount && Word(tail, at + 8) == |p.blocks|
    && IndexOffset(tail) + ENTRY_BYTES * |p.blocks| + FOOTER_BYTES == tableLen && tableLen - |tail| <= IndexOffset(tail)
  }

  /** `p` is what the tail of a table of `tableLen` bytes says, and it is consistent. */
  ghost predicate WellFormed(tableLen: nat, tail: seq<nat>, p: Parsed) {
    && Framed(tableLen, tail, p) && FirstsAscend(p.blocks) && (p.entryCount == 0 <==> p.blocks == [])
    && IndexFits(tail, p.blocks)
  }

  ghost predicate IndexFits(tail: seq<nat>, blocks: seq<BlockRef>) {
    var n := |blocks|;
    && FOOTER_BYTES + ENTRY_BYTES * n <= |tail|
    && IsIndex(tail[|tail| - FOOTER_BYTES - ENTRY_BYTES * n..|tail| - FOOTER_BYTES], n, IndexOffset(tail), blocks)
  }

  /**
   `SparseTableIndex::parse`: accepts exactly the well-formed tails and returns what they say; the index
   of a written table comes back from any tail that includes it.
   */
  method Parse(tableLen: nat, tail: seq<nat>, ghost digest: seq<nat> -> seq<nat>, ghost table: seq<nat>, ghost chunks: seq<seq<Term>>, ghost index: seq<BlockRef>)
    returns (r: Result<Parsed>)
    requires tableLen < U64_LIMIT
    ensures r.Ok? ==> WellFormed(tableLen, tail, r.value) && Chained(r.value.blocks, IndexOffset(tail))
    ensures r.Err? ==> forall p :: !WellFormed(tableLen, tail, p)
    ensures Written(digest, table, chunks, index, tableLen, tail) ==> ChunksOk(chunks) && r == Ok(Parsed(|Flatten(chunks)|, index))
  {
    hide *;
    Sizes();
    ghost var known, entries, start := Footer(digest, table, chunks, index, tableLen, tail);
    AllFramed(tableLen, tail);
    if tableLen < 8 + FOOTER_BYTES || |tail| < FOOTER_BYTES || |tail| > tableLen {
      return Err;
    }
    var at := |tail| - FOOTER_BYTES;
    if tail[at + 24..at + 32] != MAGIC {
      return Err;
    }
    var entryCount, blockCount, indexOffset := Word(tail, at), Word(tail, at + 8), Word(tail, at + 16);
    var indexLen := ENTRY_BYTES * blockCount;
    if indexLen >= U64_LIMIT || indexOffset + indexLen + FOOTER_BYTES != tableLen {
      return Err;
    }
    if tableLen - |tail| > indexOffset {
      return Err;
    }
    var inTail := indexOffset - (tableLen - |tail|);
    var blocks := ParseBlocks(tail[inTail..at], blockCount, indexOffset, known, index);
    NoneFit(tableLen, tail, blockCount);
    if blocks.Err? {
      return Err;
    }
    OneFits(tableLen, tail, blocks.value);
    var ascending := CheckAscending(blocks.value);
    if !ascending {
      return Err;
    }
    if (entryCount == 0) != (blocks.value == []) {
      return Err;
    }
    IsWellFormed(tableLen, tail, Parsed(entryCount, blocks.value));
    return Ok(Parsed(entryCount, blocks.value));
  }

  /** What the checks before the index demand of every well-formed reading. */
  lemma AllFramed(tableLen: nat, tail: seq<nat>)
    ensures forall p :: WellFormed(tableLen, tail, p) ==>
              && FOOTER_BYTES <= |tail| && Framed(tableLen, tail, p) && IndexFits(tail, p.blocks)
              && FirstsAscend(p.blocks) && (p.entryCount == 0 <==> p.blocks == [])
    ensures forall p :: Framed(tableLen, tail, p) ==>
              && 8 + FOOTER_BYTES <= tableLen && FOOTER_BYTES <= |tail| <= tableLen
              && var at := |tail| - FOOTER_BYTES;
              && tail[at + 24..at + 32] == MAGIC && Word(tail, at) == p.entryCount && Word(tail, at + 8) == |p.blocks|
              && Word(tail, at + 16) + ENTRY_BYTES * |p.blocks| + FOOTER_BYTES == tableLen && tableLen - |tail| <= Word(tail, at + 16)
  {
    hide Word, IndexFits, FirstsAscend;
  }

  /** A reading with so many blocks needs an index there. */
  lemma NoneFit(tableLen: nat, tail: seq<nat>, n: nat)
    requires FOOTER_BYTES + ENTRY_BYTES * n <= |tail|
    ensures forall blocks :: |blocks| == n && IndexFits(tail, blocks) ==>
              IsIndex(tail[|tail| - FOOTER_BYTES - ENTRY_BYTES * n..|tail| - FOOTER_BYTES], n, Word(tail, |tail| - FOOTER_BYTES + 16), blocks)
  {
    hide IsIndex, Word;
  }

  /** The index that was read is the only one. */
  lemma OneFits(tableLen: nat, tail: seq<nat>, blocks: seq<BlockRef>)
    requires FOOTER_BYTES + ENTRY_BYTES * |blocks| <= |tail|
    requires IsIndex(tail[|tail| - FOOTER_BYTES - ENTRY_BYTES * |blocks|..|tail| - FOOTER_BYTES], |blocks|, Word(tail, |tail| - FOOTER_BYTES + 16), blocks)
    ensures IndexFits(tail, blocks) && forall all :: |all| == |blocks| && IndexFits(tail, all) ==> all == blocks
  {
    hide *;
    Sizes();
    var n := |blocks|;
    FitsHere(tail, blocks);
    NoneFit(tableLen, tail, n);
    SliceLength(tail, |tail| - FOOTER_BYTES - ENTRY_BYTES * n, |tail| - FOOTER_BYTES);
    forall all | |all| == n && IndexFits(tail, all) ensures all == blocks {
      IndexUnique(tail[|tail| - FOOTER_BYTES - ENTRY_BYTES * n..|tail| - FOOTER_BYTES], n, Word(tail, |tail| - FOOTER_BYTES + 16), all, blocks);
    }
  }

  lemma FitsHere(tail: seq<nat>, blocks: seq<BlockRef>)
    requires FOOTER_BYTES + ENTRY_BYTES * |blocks| <= |tail|
    requires IsIndex(tail[|tail| - FOOTER_BYTES - ENTRY_BYTES * |blocks|..|tail| - FOOTER_BYTES], |blocks|, Word(tail, |tail| - FOOTER_BYTES + 16), blocks)
    ensures IndexFits(tail, blocks)
  {
    hide Word, IsIndex;
  }

  lemma SliceLength(x: seq<nat>, i: nat, j: nat)
    requires i <= j <= |x|
    ensures |x[i..j]| == j - i
  {
  }

  lemma IsWellFormed(tableLen: nat, tail: seq<nat>, p: Parsed)
    requires 8 + FOOTER_BYTES <= tableLen && FOOTER_BYTES <= |tail| <= tableLen
    requires var at := |tail| - FOOTER_BYTES;
      && tail[at + 24..at + 32] == MAGIC && Word(tail, at) == p.entryCount && Word(tail, at + 8) == |p.blocks|
      && Word(tail, at + 16) + ENTRY_BYTES * |p.blocks| + FOOTER_BYTES == tableLen && tableLen - |tail| <= Word(tail, at + 16)
    requires IndexFits(tail, p.blocks) && FirstsAscend(p.blocks) && (p.entryCount == 0 <==> p.blocks == [])
    ensures WellFormed(tableLen, tail, p) && IndexOffset(tail) == Word(tail, |tail| - FOOTER_BYTES + 16)
  {
    hide Word, IndexFits, FirstsAscend;
  }

  /** Where the chain of blocks from the magic ends. */
  function ChainEnd(blocks: seq<BlockRef>): nat {
    if blocks == [] then 8 else blocks[|blocks| - 1].offset + blocks[|blocks| - 1].len
  }

  /** An accepted index begins where the blocks end, except when there are no blocks to tell. */
  lemma IndexFollowsBlocks(tableLen: nat, tail: seq<nat>, p: Parsed)
    requires WellFormed(tableLen, tail, p)
    ensures IndexOffset(tail) == ChainEnd(p.blocks) <==> p.blocks != [] || IndexOffset(tail) == 8
  {
    if p.blocks != [] {
      FitsEnd(tail, p.blocks);
    }
  }

  lemma FitsEnd(tail: seq<nat>, blocks: seq<BlockRef>)
    requires FOOTER_BYTES <= |tail| && IndexFits(tail, blocks) && blocks != []
    ensures IndexOffset(tail) == ChainEnd(blocks)
  {
    hide Word;
    var n := |blocks|;
    var bytes := tail[|tail| - FOOTER_BYTES - ENTRY_BYTES * n..|tail| - FOOTER_BYTES];
    assert ParsedAt(bytes, n, IndexOffset(tail), blocks[n - 1], n - 1);
  }

  /** Five bytes of junk between the magic and the footer of an empty table are accepted. */
  lemma JunkIsAccepted()
    ensures var tail := FooterBytes(0, 0, 13);
      |tail| >= FOOTER_BYTES && WellFormed(8 + 5 + FOOTER_BYTES, tail, Parsed(0, [])) && IndexOffset(tail) == 13 != ChainEnd([])
  {
    hide *;
    Sizes();
    Limits();
    FooterLength(0, 0, 13);
    AtWhole(FooterBytes(0, 0, 13));
    ReadFooter(FooterBytes(0, 0, 13), 0, 0, 0, 13);
    EmptyWithJunk(FooterBytes(0, 0, 13));
  }

  lemma EmptyWithJunk(tail: seq<nat>)
    requires |tail| == FOOTER_BYTES == 32 && tail[24..32] == MAGIC
    requires Word(tail, 0) == 0 && Word(tail, 8) == 0 && Word(tail, 16) == 13
    ensures WellFormed(8 + 5 + FOOTER_BYTES, tail, Parsed(0, [])) && IndexOffset(tail) == 13 != ChainEnd([])
  {
    hide *;
    EmptyFits(tail);
    NoBlocks();
    IsWellFormed(8 + 5 + FOOTER_BYTES, tail, Parsed(0, []));
  }

  lemma AtWhole(x: seq<nat>)
    ensures At(x, 0, x)
  {
  }

  lemma Limits()
    ensures 13 < U64_LIMIT
  {
  }

  lemma NoBlocks()
    ensures ChainEnd([]) == 8
  {
  }

  lemma EmptyFits(tail: seq<nat>)
    requires |tail| >= FOOTER_BYTES
    ensures IndexFits(tail, []) && FirstsAscend([])
  {
  }

  /** Everything the parser relies on, when the tail is that of a written table. */
  lemma Footer(digest: seq<nat> -> seq<nat>, table: seq<nat>, chunks: seq<seq<Term>>, index: seq<BlockRef>, tableLen: nat, tail: seq<nat>)
    returns (known: bool, entries: nat, start: nat)
    ensures known <==> Written(digest, table, chunks, index, tableLen, tail)
    ensures known ==> |tail| >= FOOTER_BYTES + ENTRY_BYTES * |index| && tableLen >= |tail| && tableLen >= 8 + FOOTER_BYTES
    ensures known ==>
      var at := |tail| - FOOTER_BYTES;
      && ChunksOk(chunks) && entries == |Flatten(chunks)| && start == |Body(chunks)| && (entries == 0 <==> index == [])
      && Word(tail, at) == entries && Word(tail, at + 8) == |index| && Word(tail, at + 16) == start && tail[at + 24..at + 32] == MAGIC
      && start + ENTRY_BYTES * |index| + FOOTER_BYTES == tableLen
      && RefsOk(index) && Chained(index, start) && FirstsAscend(index)
      && tail[at - ENTRY_BYTES * |index|..at] == IndexBytes(index)
  {
    hide *;
    Sizes();
    known, entries, start := false, 0, 0;
    if Written(digest, table, chunks, index, tableLen, tail) {
      known := true;
      WrittenFacts(digest, table, chunks, index, tableLen, tail);
      TailHolds(digest, table, chunks, index, tableLen, tail);
      IndexChained(digest, table, chunks, index);
      IndexAscends(digest, table, chunks, index);
      TableFacts(digest, table, chunks, index);
      FlattenFits(chunks);
      entries, start := |Flatten(chunks)|, |Body(chunks)|;
      IndexLength(index);
      AtIs(tail, |tail| - FOOTER_BYTES - ENTRY_BYTES * |index|, IndexBytes(index));
      ReadFooter(tail, |tail| - FOOTER_BYTES, entries, |index|, start);
    }
  }

  lemma {:induction false} BlockAtLeast(ts: seq<Term>)
    requires TermsOk(ts)
    ensures |ts| <= |BlockBytes(ts)|
  {
    if ts != [] {
      hide BlockBytes, TermsOk, HashBytes, ValueBytes;
      SplitLast(ts);
      BlockBytesNext(ts[..|ts| - 1], ts[|ts| - 1]);
      BlockAtLeast(ts[..|ts| - 1]);
    }
  }

  /** There are no more terms than bytes, and none at all only without blocks. */
  lemma {:induction false} FlattenFits(chunks: seq<seq<Term>>)
    requires ChunksOk(chunks)
    ensures 8 + |Flatten(chunks)| <= |Body(chunks)| && (|Flatten(chunks)| == 0 <==> chunks == [])
  {
    if chunks != [] {
      hide BlockBytes, TermsOk, Flatten, Body;
      var n := |chunks| - 1;
      SplitLast(chunks);
      BodyNext(chunks[..n], chunks[n]);
      BlockAtLeast(chunks[n]);
      FlattenFits(chunks[..n]);
    }
  }
}
