/** Writing a sparse dictionary (`SparseTableWriter` in crates/index/src/sparse_table.rs). */
module SparseWriter {
  import opened Wrappers
  import opened Slices
  import opened Bits
  import opened Varints
  import opened SparseEntries

  const BLOCK_BYTES: nat := 131072

  /** The eight bytes `SGSPARSE`. */
  const MAGIC: seq<nat> := [83, 71, 83, 80, 65, 82, 83, 69]

  datatype BlockRef = BlockRef(firstHash: nat, offset: nat, len: nat, hash: seq<nat>)

  /** SHA-256 as an arbitrary function to 32 bytes. */
  ghost predicate DigestOk(digest: seq<nat> -> seq<nat>) {
    forall x :: |digest(x)| == 32 && Below(digest(x), 256)
  }

  function Flatten(chunks: seq<seq<Term>>): seq<Term> {
    if chunks == [] then [] else Flatten(chunks[..|chunks| - 1]) + chunks[|chunks| - 1]
  }

  ghost predicate ChunksOk(chunks: seq<seq<Term>>) {
    forall k :: 0 <= k < |chunks| ==> chunks[k] != [] && TermsOk(chunks[k]) && 8 < |BlockBytes(chunks[k])| <= BLOCK_BYTES + 29
  }

  /** Where chunk `k` starts in the table: right after the magic and the chunks before it. */
  function ChunkStart(chunks: seq<seq<Term>>, k: nat): nat
    requires ChunksOk(chunks) && k <= |chunks|
  {
    if k == 0 then 8 else ChunkStart(chunks, k - 1) + |BlockBytes(chunks[k - 1])|
  }

  /** The index entry of chunk `k`. */
  function RefOf(chunks: seq<seq<Term>>, digest: seq<nat> -> seq<nat>, k: nat): BlockRef
    requires ChunksOk(chunks) && k < |chunks|
  {
    var block := BlockBytes(chunks[k]);
    BlockRef(chunks[k][0].hash, ChunkStart(chunks, k), |block|, digest(block))
  }

  ghost predicate IndexOk(chunks: seq<seq<Term>>, digest: seq<nat> -> seq<nat>, index: seq<BlockRef>)
    requires ChunksOk(chunks)
  {
    |index| == |chunks| && forall k :: 0 <= k < |index| ==> index[k] == RefOf(chunks, digest, k)
  }

  /** The magic, then the blocks. */
  function Body(chunks: seq<seq<Term>>): (r: seq<nat>)
    requires ChunksOk(chunks)
  {
    if chunks == [] then MAGIC else Body(chunks[..|chunks| - 1]) + BlockBytes(chunks[|chunks| - 1])
  }

  lemma BodyNext(chunks: seq<seq<Term>>, chunk: seq<Term>)
    requires ChunksOk(chunks + [chunk])
    ensures ChunksOk(chunks) && TermsOk(chunk) && Body(chunks + [chunk]) == Body(chunks) + BlockBytes(chunk)
    ensures Flatten(chunks + [chunk]) == Flatten(chunks) + chunk
  {
    var all := chunks + [chunk];
    assert all[..|chunks|] == chunks && all[|chunks|] == chunk;
    assert forall k :: 0 <= k < |chunks| ==> all[k] == chunks[k];
  }

  lemma {:induction false} StartPrefix(chunks: seq<seq<Term>>, chunk: seq<Term>, k: nat)
    requires ChunksOk(chunks + [chunk]) && ChunksOk(chunks) && k <= |chunks|
    ensures ChunkStart(chunks + [chunk], k) == ChunkStart(chunks, k)
  {
    hide BlockBytes, TermsOk;
    if k > 0 {
      StartPrefix(chunks, chunk, k - 1);
    }
  }

  lemma {:induction false} BodyLength(chunks: seq<seq<Term>>)
    requires ChunksOk(chunks)
    ensures |Body(chunks)| == ChunkStart(chunks, |chunks|)
  {
    if chunks != [] {
      var n := |chunks| - 1;
      SplitLast(chunks);
      BodyNext(chunks[..n], chunks[n]);
      BodyLength(chunks[..n]);
      StartPrefix(chunks[..n], chunks[n], n);
    }
  }

  lemma IndexNext(chunks: seq<seq<Term>>, chunk: seq<Term>, digest: seq<nat> -> seq<nat>, index: seq<BlockRef>, ref: BlockRef)
    requires ChunksOk(chunks + [chunk]) && ChunksOk(chunks) && IndexOk(chunks, digest, index)
    requires chunk != [] && TermsOk(chunk)
    requires ref == BlockRef(chunk[0].hash, |Body(chunks)|, |BlockBytes(chunk)|, digest(BlockBytes(chunk)))
    ensures IndexOk(chunks + [chunk], digest, index + [ref])
  {
    var all := chunks + [chunk];
    BodyLength(chunks);
    hide BlockBytes, TermsOk, Body, ChunksOk, ChunkStart, RefOf;
    forall k | 0 <= k < |all| ensures (index + [ref])[k] == RefOf(all, digest, k) {
      RefStays(chunks, chunk, digest, k);
    }
  }

  lemma RefStays(chunks: seq<seq<Term>>, chunk: seq<Term>, digest: seq<nat> -> seq<nat>, k: nat)
    requires ChunksOk(chunks + [chunk]) && ChunksOk(chunks) && k <= |chunks| && chunk != [] && TermsOk(chunk)
    ensures k < |chunks| ==> RefOf(chunks + [chunk], digest, k) == RefOf(chunks, digest, k)
    ensures k == |chunks| ==>
              RefOf(chunks + [chunk], digest, k) == BlockRef(chunk[0].hash, ChunkStart(chunks, k), |BlockBytes(chunk)|, digest(BlockBytes(chunk)))
  {
    StartPrefix(chunks, chunk, k);
    hide BlockBytes, TermsOk, ChunkStart;
  }

  lemma ChunksGrow(chunks: seq<seq<Term>>, chunk: seq<Term>)
    requires ChunksOk(chunks) && chunk != [] && TermsOk(chunk) && 8 < |BlockBytes(chunk)| <= BLOCK_BYTES + 29
    ensures ChunksOk(chunks + [chunk])
  {
  }

  /** Appending the next term keeps the order of the whole insert sequence. */
  lemma TermsAppend(all: seq<Term>, t: Term)
    requires TermsOk(all) && ValueOk(t) && t.hash < U64_LIMIT && (all != [] ==> all[|all| - 1].hash < t.hash)
    ensures TermsOk(all + [t])
  {
  }

  lemma TermsSuffix(a: seq<Term>, b: seq<Term>)
    requires TermsOk(a + b)
    ensures TermsOk(b) && (b != [] ==> (a + b)[|a + b| - 1] == b[|b| - 1])
  {
    assert forall i :: 0 <= i < |b| ==> (a + b)[|a| + i] == b[i];
  }

  /** The table written so far: magic and flushed blocks, with their index entries. */
  ghost predicate TableState(digest: seq<nat> -> seq<nat>, out: seq<nat>, written: nat, index: seq<BlockRef>, chunks: seq<seq<Term>>) {
    ChunksOk(chunks) && out == Body(chunks) && written == |out| && IndexOk(chunks, digest, index)
  }

  /** The pending block holds the terms of `current`. */
  ghost predicate PendingState(block: seq<nat>, blockFirstHash: nat, current: seq<Term>) {
    TermsOk(current) && block == BlockBytes(current) && (current != [] ==> blockFirstHash == current[0].hash)
  }

  /** The inserts as a whole. */
  ghost predicate InsertState(all: seq<Term>, lastHash: Option<nat>, entryCount: nat) {
    TermsOk(all) && lastHash == LastHash(all) && entryCount == |all|
  }

  lemma FlushKeeps(digest: seq<nat> -> seq<nat>, out: seq<nat>, written: nat, index: seq<BlockRef>, chunks: seq<seq<Term>>,
                   block: seq<nat>, blockFirstHash: nat, current: seq<Term>)
    requires TableState(digest, out, written, index, chunks) && PendingState(block, blockFirstHash, current)
    requires block != [] && |block| <= BLOCK_BYTES + 29
    ensures TableState(digest, out + block, written + |block|, index + [BlockRef(blockFirstHash, written, |block|, digest(block))], chunks + [current])
    ensures Flatten(chunks + [current]) + [] == Flatten(chunks) + current
  {
    hide BlockBytes, TermsOk, Body, Flatten, IndexOk, ChunksOk;
    CurrentNonempty(block, current);
    BlockSizes(current);
    ChunksGrow(chunks, current);
    BodyNext(chunks, current);
    IndexNext(chunks, current, digest, index, BlockRef(blockFirstHash, written, |block|, digest(block)));
  }

  lemma CurrentNonempty(block: seq<nat>, current: seq<Term>)
    requires TermsOk(current) && block == BlockBytes(current)
    ensures block == [] <==> current == []
  {
  }

  lemma NothingPending()
    ensures PendingState([], 0, []) && forall first :: PendingState([], first, [])
  {
  }

  /** The pending block with the hash of its next term. */
  function HashOnto(block: seq<nat>, lastHash: Option<nat>, hash: nat): seq<nat>
    requires block != [] ==> lastHash.Some?
    requires lastHash.Some? ==> lastHash.value < hash
  {
    if block == [] then BigEndian(hash, 8) else block + Varint(hash - lastHash.value)
  }

  /** One more term in the pending block, and in the account of inserts. */
  lemma AppendKeeps(before: seq<Term>, current: seq<Term>, t: Term, block: seq<nat>, blockFirstHash: nat, lastHash: Option<nat>, entryCount: nat)
    requires InsertState(before + current, lastHash, entryCount) && PendingState(block, blockFirstHash, current) && |block| < BLOCK_BYTES
    requires ValueOk(t) && t.hash < U64_LIMIT && (lastHash.Some? ==> lastHash.value < t.hash)
    ensures block != [] ==> lastHash.Some?
    ensures var next := HashOnto(block, lastHash, t.hash) + ValueBytes(t);
      && PendingState(next, if block == [] then t.hash else blockFirstHash, current + [t]) && 8 < |next| <= BLOCK_BYTES + 29
    ensures InsertState(before + (current + [t]), Some(t.hash), entryCount + 1)
  {
    AppendInserts(before, current, t, lastHash, entryCount);
    AppendPending(before, current, t, block, blockFirstHash, lastHash, entryCount);
  }

  lemma AppendInserts(before: seq<Term>, current: seq<Term>, t: Term, lastHash: Option<nat>, entryCount: nat)
    requires InsertState(before + current, lastHash, entryCount)
    requires ValueOk(t) && t.hash < U64_LIMIT && (lastHash.Some? ==> lastHash.value < t.hash)
    ensures InsertState(before + (current + [t]), Some(t.hash), entryCount + 1)
  {
    Associative(before, current, [t]);
    TermsAppend(before + current, t);
    hide TermsOk, ValueOk;
  }

  lemma LastOfBoth(before: seq<Term>, current: seq<Term>, lastHash: Option<nat>)
    requires lastHash == LastHash(before + current)
    ensures current != [] ==> LastHash(current) == lastHash && lastHash.Some?
    ensures current == [] ==> LastHash(current) == None
  {
  }

  lemma AppendPending(before: seq<Term>, current: seq<Term>, t: Term, block: seq<nat>, blockFirstHash: nat, lastHash: Option<nat>, entryCount: nat)
    requires InsertState(before + current, lastHash, entryCount) && PendingState(block, blockFirstHash, current) && |block| < BLOCK_BYTES
    requires ValueOk(t) && t.hash < U64_LIMIT && (lastHash.Some? ==> lastHash.value < t.hash)
    ensures block != [] ==> lastHash.Some?
    ensures var next := HashOnto(block, lastHash, t.hash) + ValueBytes(t);
      && PendingState(next, if block == [] then t.hash else blockFirstHash, current + [t]) && 8 < |next| <= BLOCK_BYTES + 29
  {
    hide *;
    InsertFacts(before + current, lastHash, entryCount);
    LastOfBoth(before, current, lastHash);
    PendingFacts(block, blockFirstHash, current);
    CurrentNonempty(block, current);
    CurrentAppends(before, current, t, lastHash);
    BlockBytesNext(current, t);
    EntrySize(t, LastHash(current));
    BlockSizes(current + [t]);
    NextBlock(current, t);
    HashOntoIs(block, current, lastHash, t.hash);
    Associative(block, HashBytes(LastHash(current), t.hash), ValueBytes(t));
    FirstOf(current, t);
    PendingIs(HashOnto(block, lastHash, t.hash) + ValueBytes(t), if block == [] then t.hash else blockFirstHash, current + [t]);
  }

  lemma InsertFacts(all: seq<Term>, lastHash: Option<nat>, entryCount: nat)
    requires InsertState(all, lastHash, entryCount)
    ensures TermsOk(all) && lastHash == LastHash(all)
  {
  }

  lemma PendingFacts(block: seq<nat>, blockFirstHash: nat, current: seq<Term>)
    requires PendingState(block, blockFirstHash, current)
    ensures TermsOk(current) && block == BlockBytes(current) && (current != [] ==> blockFirstHash == current[0].hash)
  {
  }

  lemma PendingIs(block: seq<nat>, blockFirstHash: nat, current: seq<Term>)
    requires TermsOk(current) && block == BlockBytes(current) && (current != [] ==> blockFirstHash == current[0].hash)
    ensures PendingState(block, blockFirstHash, current)
  {
  }

  lemma HashOntoIs(block: seq<nat>, current: seq<Term>, lastHash: Option<nat>, hash: nat)
    requires TermsOk(current) && block == BlockBytes(current) && (lastHash.Some? ==> lastHash.value < hash)
    requires current != [] ==> LastHash(current) == lastHash && lastHash.Some?
    requires current == [] ==> LastHash(current) == None
    ensures (block != [] ==> lastHash.Some?) && HashOnto(block, lastHash, hash) == block + HashBytes(LastHash(current), hash)
  {
    hide *;
    CurrentNonempty(block, current);
    HashOntoCases(block, lastHash, hash);
    HashBytesCases(LastHash(current), hash);
    EmptyPrefix(BigEndian(hash, 8));
  }

  lemma HashOntoCases(block: seq<nat>, lastHash: Option<nat>, hash: nat)
    requires (block != [] ==> lastHash.Some?) && (lastHash.Some? ==> lastHash.value < hash)
    ensures HashOnto(block, lastHash, hash) == if block == [] then BigEndian(hash, 8) else block + Varint(hash - lastHash.value)
  {
  }

  lemma HashBytesCases(previous: Option<nat>, hash: nat)
    requires previous.Some? ==> previous.value < hash
    ensures HashBytes(previous, hash) == if previous.None? then BigEndian(hash, 8) else Varint(hash - previous.value)
  {
  }

  lemma EmptyPrefix(x: seq<nat>)
    ensures [] + x == x
  {
  }

  lemma FirstOf(current: seq<Term>, t: Term)
    ensures (current + [t])[0] == if current == [] then t else current[0]
  {
  }

  lemma CurrentAppends(before: seq<Term>, current: seq<Term>, t: Term, lastHash: Option<nat>)
    requires TermsOk(before + current) && ValueOk(t) && t.hash < U64_LIMIT && lastHash == LastHash(before + current)
    requires lastHash.Some? ==> lastHash.value < t.hash
    ensures TermsOk(current) && TermsOk(current + [t])
  {
    TermsSuffix(before, current);
    TermsAppend(current, t);
  }

  lemma NextBlock(current: seq<Term>, t: Term)
    requires TermsOk(current) && TermsOk(current + [t]) && ValueOk(t)
    requires LastHash(current).Some? ==> LastHash(current).value < t.hash
    ensures current == [] ==> BlockBytes(current) == [] && HashBytes(LastHash(current), t.hash) == BigEndian(t.hash, 8)
    ensures current != [] ==> HashBytes(LastHash(current), t.hash) == Varint(t.hash - current[|current| - 1].hash)
    ensures current != [] ==> LastHash(current) == Some(current[|current| - 1].hash)
  {
  }

  /** The term may come next: its hash is greater than every one before. */
  predicate Follows(all: seq<Term>, t: Term) { all != [] ==> all[|all| - 1].hash < t.hash }

  lemma FollowsLast(all: seq<Term>, lastHash: Option<nat>, entryCount: nat, t: Term)
    requires InsertState(all, lastHash, entryCount)
    ensures Follows(all, t) <==> (lastHash.Some? ==> lastHash.value < t.hash)
  {
  }

  lemma LastKnown(before: seq<Term>, current: seq<Term>, block: seq<nat>, blockFirstHash: nat, lastHash: Option<nat>, entryCount: nat)
    requires InsertState(before + current, lastHash, entryCount) && PendingState(block, blockFirstHash, current)
    ensures block != [] ==> lastHash.Some?
  {
    CurrentNonempty(block, current);
    LastOfBoth(before, current, lastHash);
  }

  lemma ValueOkIs(t: Term)
    requires t.offset < OFFSET_LIMIT && t.count < COUNT_LIMIT && (t.len.Some? ==> t.len.value < U64_LIMIT)
    ensures ValueOk(t) <==> if t.count == 1 then t.len.None? else t.len.Some? && t.len.value > 0
  {
  }

  lemma HashOntoGrows(block: seq<nat>, lastHash: Option<nat>, hash: nat)
    requires (block != [] ==> lastHash.Some?) && (lastHash.Some? ==> lastHash.value < hash)
    ensures |HashOnto(block, lastHash, hash)| > |block|
  {
  }

  lemma NotPending(was: seq<nat>, wasFirst: nat, block: seq<nat>, blockFirstHash: nat, current: seq<Term>)
    requires PendingState(was, wasFirst, current) && |block| > |was|
    ensures !PendingState(block, blockFirstHash, current)
  {
  }

  /** Every block has reached the flush target. */
  ghost predicate Filled(chunks: seq<seq<Term>>) {
    forall k :: 0 <= k < |chunks| ==> TermsOk(chunks[k]) && |BlockBytes(chunks[k])| >= BLOCK_BYTES
  }

  lemma FilledNext(chunks: seq<seq<Term>>, block: seq<nat>, blockFirstHash: nat, current: seq<Term>)
    requires PendingState(block, blockFirstHash, current) && |block| >= BLOCK_BYTES
    ensures Filled(chunks) ==> Filled(chunks + [current])
  {
    hide BlockBytes, TermsOk;
  }

  class SparseTableWriter {
    const digest: seq<nat> -> seq<nat>
    var out: seq<nat>
    var block: seq<nat>
    var blockFirstHash: nat
    var lastHash: Option<nat>
    var entryCount: nat
    var written: nat
    var index: seq<BlockRef>
    /** The flushed inserts, block by block, and those of the pending block. */
    ghost var chunks: seq<seq<Term>>
    ghost var current: seq<Term>

    ghost predicate Consistent()
      reads this
    {
      && DigestOk(digest) && TableState(digest, out, written, index, chunks)
      && PendingState(block, blockFirstHash, current) && InsertState(Inserted(), lastHash, entryCount)
    }

    ghost predicate Valid()
      reads this
    {
      Consistent() && |block| < BLOCK_BYTES
    }

    ghost function Inserted(): seq<Term>
      reads this
    {
      Flatten(chunks) + current
    }

    constructor (digest: seq<nat> -> seq<nat>)
      requires DigestOk(digest)
      ensures Valid() && Inserted() == [] && chunks == [] && this.digest == digest
    {
      this.digest := digest;
      out, block, blockFirstHash, lastHash, entryCount, written, index := MAGIC, [], 0, None, 0, 8, [];
      chunks, current := [], [];
    }

    method FlushBlock()
      requires Consistent() && |block| <= BLOCK_BYTES + 29
      modifies this
      ensures Valid() && Inserted() == old(Inserted()) && block == []
      ensures chunks == old(chunks) + (if old(block) == [] then [] else [old(current)])
    {
      hide TableState, PendingState, InsertState, DigestOk, Flatten;
      if block == [] {
        assert chunks + [] == chunks;
        return;
      }
      FlushKeeps(digest, out, written, index, chunks, block, blockFirstHash, current);
      index := index + [BlockRef(blockFirstHash, written, |block|, digest(block))];
      out := out + block;
      written := written + |block|;
      chunks := chunks + [current];
      current := [];
      block := [];
      NothingPending();
    }

    /**
     Accepts ascending hashes whose value is a single document without a length or a list with a positive
     one. A hash out of order is refused before anything is written. A refused value comes too late: the
     hash is already in the pending block, and the writer no longer holds what was inserted.
     */
    method Insert(t: Term) returns (r: Result<bool>)
      requires Valid() && t.hash < U64_LIMIT && t.offset < OFFSET_LIMIT && t.count < COUNT_LIMIT
      requires t.len.Some? ==> t.len.value < U64_LIMIT
      modifies this
      ensures r.Ok? <==> ValueOk(t) && Follows(old(Inserted()), t)
      ensures r.Ok? ==> Valid() && Inserted() == old(Inserted()) + [t]
      ensures r.Ok? && old(Filled(chunks)) ==> Filled(chunks)
      ensures r.Err? ==> (Valid() <==> !Follows(old(Inserted()), t))
      ensures !Follows(old(Inserted()), t) ==> unchanged(this)
      ensures r.Err? && Follows(old(Inserted()), t) ==>
                && (old(block) != [] ==> old(lastHash).Some?) && (old(lastHash).Some? ==> old(lastHash).value < t.hash)
                && block == HashOnto(old(block), old(lastHash), t.hash)
                && blockFirstHash == (if old(block) == [] then t.hash else old(blockFirstHash))
                && unchanged(this`out, this`lastHash, this`entryCount, this`written, this`index, this`chunks, this`current)
    {
      hide *;
      Facts();
      StillValid();
      FollowsLast(Flatten(chunks) + current, lastHash, entryCount, t);
      if lastHash.Some? && t.hash <= lastHash.value {
        return Err;
      }
      LastKnown(Flatten(chunks), current, block, blockFirstHash, lastHash, entryCount);
      ghost var was, wasFirst := block, blockFirstHash;
      if block == [] {
        blockFirstHash := t.hash;
        block := BigEndian(t.hash, 8);
      } else {
        block := WriteVarint(block, t.hash - lastHash.value);
      }
      HashOntoCases(was, lastHash, t.hash);
      ValueOkIs(t);
      if if t.count == 1 then t.len.Some? else t.len.None? || t.len.value == 0 {
        HashOntoGrows(was, lastHash, t.hash);
        NotPending(was, wasFirst, block, blockFirstHash, current);
        assert !Valid() by { ValidIsPending(); }
        return Err;
      }
      AppendKeeps(Flatten(chunks), current, t, was, wasFirst, lastHash, entryCount);
      block := WriteValue(block, t);
      StillValid();
      Take(t);
      if |block| >= BLOCK_BYTES {
        PendingNow();
        FilledNext(chunks, block, blockFirstHash, current);
        FlushBlock();
      }
      StillValid();
      return Ok(true);
    }

    lemma PendingNow()
      requires Consistent()
      ensures PendingState(block, blockFirstHash, current)
    {
    }

    lemma ValidIsPending()
      ensures Valid() ==> PendingState(block, blockFirstHash, current)
    {
    }

    lemma StillValid()
      ensures Consistent() && |block| < BLOCK_BYTES ==> Valid()
      ensures Inserted() == Flatten(chunks) + current
    {
    }

    lemma Facts()
      requires Valid()
      ensures DigestOk(digest) && TableState(digest, out, written, index, chunks) && |block| < BLOCK_BYTES
      ensures PendingState(block, blockFirstHash, current) && InsertState(Flatten(chunks) + current, lastHash, entryCount)
    {
    }

    /** Record a term whose bytes are in the pending block. */
    method Take(t: Term)
      requires DigestOk(digest) && TableState(digest, out, written, index, chunks)
      requires PendingState(block, blockFirstHash, current + [t])
      requires InsertState(Flatten(chunks) + (current + [t]), Some(t.hash), entryCount + 1)
      modifies this`lastHash, this`entryCount, this`current
      ensures Consistent() && Inserted() == old(Inserted()) + [t]
    {
      hide TableState, PendingState, InsertState, DigestOk, Flatten;
      Associative(Flatten(chunks), current, [t]);
      lastHash := Some(t.hash);
      entryCount := entryCount + 1;
      current := current + [t];
    }
  }

  method WriteValue(block: seq<nat>, t: Term) returns (r: seq<nat>)
    requires t.count != 1 ==> t.len.Some?
    ensures r == block + ValueBytes(t)
  {
    hide Varint;
    if t.count == 1 {
      r := WriteVarint(block, t.offset * 2 + 1);
    } else {
      r := WriteVarint(block, t.count * 2);
      r := WriteVarint(r, t.offset);
      r := WriteVarint(r, t.len.value);
      JoinThree(block, Varint(t.count * 2), Varint(t.offset), Varint(t.len.value));
    }
  }

  lemma JoinThree(x: seq<nat>, a: seq<nat>, b: seq<nat>, c: seq<nat>)
    ensures x + a + b + c == x + (a + b + c)
  {
  }
}
