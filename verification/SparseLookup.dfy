/**
 Looking a hash up in a sparse dictionary, from a local file with lazily decoded blocks or by ranged
 reads (`SparseTableIndex::block_for` in crates/index/src/sparse_table.rs, `TermMap::get` in
 crates/index/src/terms.rs, `fetch_gram_values` in crates/index/src/remote_terms.rs).
 */
module SparseLookup {
  import opened Wrappers
  import opened Bits
  import opened Varints
  import opened SparseEntries
  import opened SparseWriter
  import opened SparseTable

  /** What a lookup must answer: the inserted term with this hash, or nothing if there is none. */
  ghost predicate Answers(all: seq<Term>, hash: nat, r: Option<Term>) {
    match r
    case Some(t) => t in all && t.hash == hash
    case None => forall t :: t in all ==> t.hash != hash
  }

  /** `partition_point` on the first hashes, less one. */
  method BlockFor(blocks: seq<BlockRef>, hash: nat) returns (r: Option<nat>)
    requires FirstsAscend(blocks)
    ensures r.None? ==> forall k :: 0 <= k < |blocks| ==> hash < blocks[k].firstHash
    ensures r.Some? ==> r.value < |blocks| && blocks[r.value].firstHash <= hash && forall k :: r.value < k < |blocks| ==> hash < blocks[k].firstHash
  {
    var lo, hi := 0, |blocks|;
    while lo < hi
      invariant 0 <= lo <= hi <= |blocks|
      invariant forall k :: 0 <= k < lo ==> blocks[k].firstHash <= hash
      invariant forall k :: hi <= k < |blocks| ==> hash < blocks[k].firstHash
    {
      var mid := lo + (hi - lo) / 2;
      if blocks[mid].firstHash <= hash {
        lo := mid + 1;
      } else {
        hi := mid;
      }
    }
    return if lo == 0 then None else Some(lo - 1);
  }

  /** `binary_search_by_key` on decoded entries. */
  method FindTerm(entries: seq<Term>, hash: nat) returns (r: Option<Term>)
    requires TermsOk(entries)
    ensures Answers(entries, hash, r)
  {
    var lo, hi := 0, |entries|;
    while lo < hi
      invariant 0 <= lo <= hi <= |entries|
      invariant forall k :: 0 <= k < lo ==> entries[k].hash < hash
      invariant forall k :: hi <= k < |entries| ==> hash < entries[k].hash
    {
      var mid := lo + (hi - lo) / 2;
      if entries[mid].hash < hash {
        lo := mid + 1;
      } else if hash < entries[mid].hash {
        hi := mid;
      } else {
        return Some(entries[mid]);
      }
    }
    return None;
  }

  // ---------------------------------------------------------------------------------------------
  // The right block

  lemma {:induction false} TermIn(chunks: seq<seq<Term>>, t: Term) returns (k: nat, i: nat)
    requires t in Flatten(chunks)
    ensures k < |chunks| && i < |chunks[k]| && chunks[k][i] == t
  {
    var n :| 0 <= n < |Flatten(chunks)| && Flatten(chunks)[n] == t;
    k, i := FlattenFrom(chunks, n);
  }

  /** A term is found, if at all, in the block the index points to. */
  lemma OnlyThere(chunks: seq<seq<Term>>, k: nat, hash: nat, r: Option<Term>)
    requires TermsOk(Flatten(chunks)) && k < |chunks| && |chunks[k]| > 0
    requires chunks[k][0].hash <= hash && forall j :: k < j < |chunks| ==> |chunks[j]| > 0 && hash < chunks[j][0].hash
    requires Answers(chunks[k], hash, r)
    ensures Answers(Flatten(chunks), hash, r)
  {
    hide Flatten, TermsOk;
    if r.Some? {
      var i :| 0 <= i < |chunks[k]| && chunks[k][i] == r.value;
      var n := FlattenHas(chunks, k, i);
    } else {
      forall t | t in Flatten(chunks) ensures t.hash != hash {
        var j, i := TermIn(chunks, t);
        if j < k {
          ChunksAscend(chunks, j, k, i, 0);
        } else if j > k {
          FirstIsLeast(chunks, j, i);
        } else {
          assert t in chunks[k];
        }
      }
    }
  }

  lemma FirstIsLeast(chunks: seq<seq<Term>>, j: nat, i: nat)
    requires TermsOk(Flatten(chunks)) && j < |chunks| && i < |chunks[j]|
    ensures chunks[j][0].hash <= chunks[j][i].hash
  {
    if i > 0 {
      ChunkOrdered(chunks, j, 0, i);
    }
  }

  lemma {:induction false} ChunkOrdered(chunks: seq<seq<Term>>, j: nat, a: nat, b: nat)
    requires TermsOk(Flatten(chunks)) && j < |chunks| && a < b < |chunks[j]|
    ensures chunks[j][a].hash < chunks[j][b].hash
    decreases |chunks|
  {
    hide *;
    var n := |chunks| - 1;
    var front := Flatten(chunks[..n]);
    FlattenNext(chunks);
    if j < n {
      TermsPrefix(front, chunks[n]);
      ChunkOrdered(chunks[..n], j, a, b);
    } else {
      JoinIndex(front, chunks[n], a);
      JoinIndex(front, chunks[n], b);
      HashesAscend(Flatten(chunks), |front| + a, |front| + b);
    }
  }

  lemma NowhereElse(chunks: seq<seq<Term>>, hash: nat)
    requires TermsOk(Flatten(chunks)) && forall j :: 0 <= j < |chunks| ==> |chunks[j]| > 0 && hash < chunks[j][0].hash
    ensures Answers(Flatten(chunks), hash, None)
  {
    hide Flatten, TermsOk;
    forall t | t in Flatten(chunks) ensures t.hash != hash {
      var j, i := TermIn(chunks, t);
      FirstIsLeast(chunks, j, i);
    }
  }

  /** The bytes a block reference names are that block's. */
  lemma {:induction false} BlockInBody(chunks: seq<seq<Term>>, k: nat)
    requires ChunksOk(chunks) && k < |chunks|
    ensures TermsOk(chunks[k]) && At(Body(chunks), ChunkStart(chunks, k), BlockBytes(chunks[k]))
    decreases |chunks|
  {
    hide *;
    var n := |chunks| - 1;
    ChunkIsOk(chunks, k);
    LastChunk(chunks);
    StartOfPrefix(chunks, n, k);
    BodyLength(chunks[..n]);
    if k == n {
      AtEnd(Body(chunks[..n]), BlockBytes(chunks[n]));
    } else {
      BlockInBody(chunks[..n], k);
      PrefixAt(chunks, n, k);
      AtGrows(Body(chunks[..n]), BlockBytes(chunks[n]), ChunkStart(chunks[..n], k), BlockBytes(chunks[k]));
    }
  }

  lemma PrefixAt(chunks: seq<seq<Term>>, n: nat, k: nat)
    requires k < n <= |chunks|
    ensures chunks[..n][k] == chunks[k]
  {
  }

  lemma ChunkIsOk(chunks: seq<seq<Term>>, k: nat)
    requires ChunksOk(chunks) && k < |chunks|
    ensures TermsOk(chunks[k]) && chunks[k] != []
  {
  }

  lemma LastChunk(chunks: seq<seq<Term>>)
    requires ChunksOk(chunks) && chunks != []
    ensures var n := |chunks| - 1;
      ChunksOk(chunks[..n]) && TermsOk(chunks[n]) && Body(chunks) == Body(chunks[..n]) + BlockBytes(chunks[n])
  {
  }

  lemma {:induction false} StartOfPrefix(chunks: seq<seq<Term>>, n: nat, k: nat)
    requires k <= n <= |chunks| && ChunksOk(chunks) && ChunksOk(chunks[..n])
    ensures ChunkStart(chunks[..n], k) == ChunkStart(chunks, k)
  {
    hide BlockBytes, TermsOk;
    if k > 0 {
      StartOfPrefix(chunks, n, k - 1);
    }
  }

  /** In a written table, block `k`'s bytes are those of chunk `k`. */
  lemma BlockInTable(digest: seq<nat> -> seq<nat>, table: seq<nat>, chunks: seq<seq<Term>>, index: seq<BlockRef>, k: nat)
    requires IsTable(digest, table, chunks, index) && k < |index|
    ensures |index| == |chunks| && ChunksOk(chunks) && TermsOk(chunks[k]) && chunks[k] != []
    ensures index[k].firstHash == chunks[k][0].hash && index[k].hash == digest(BlockBytes(chunks[k]))
    ensures index[k].offset + index[k].len <= |table| && table[index[k].offset..index[k].offset + index[k].len] == BlockBytes(chunks[k])
    ensures IsBlockOf(BlockBytes(chunks[k]), chunks[k])
  {
    hide *;
    TableFacts(digest, table, chunks, index);
    ChunkIsOk(chunks, k);
    RefParts(chunks, digest, k);
    BlockInBody(chunks, k);
    TableBytesIs(chunks, index);
    AtGrows(Body(chunks), IndexBytes(index) + FooterBytes(|Flatten(chunks)|, |index|, |Body(chunks)|), ChunkStart(chunks, k), BlockBytes(chunks[k]));
    AtIs(table, ChunkStart(chunks, k), BlockBytes(chunks[k]));
  }

  lemma RefParts(chunks: seq<seq<Term>>, digest: seq<nat> -> seq<nat>, k: nat)
    requires ChunksOk(chunks) && k < |chunks|
    ensures TermsOk(chunks[k]) && chunks[k] != []
    ensures RefOf(chunks, digest, k) == BlockRef(chunks[k][0].hash, ChunkStart(chunks, k), |BlockBytes(chunks[k])|, digest(BlockBytes(chunks[k])))
    ensures IsBlockOf(BlockBytes(chunks[k]), chunks[k])
  {
  }

  /** The answer from the indexed block is the answer for the table. */
  lemma LookupIs(digest: seq<nat> -> seq<nat>, table: seq<nat>, chunks: seq<seq<Term>>, index: seq<BlockRef>, hash: nat, block: Option<nat>, r: Option<Term>)
    requires IsTable(digest, table, chunks, index)
    requires block.None? ==> r.None? && forall k :: 0 <= k < |index| ==> hash < index[k].firstHash
    requires block.Some? ==> block.value < |index| && index[block.value].firstHash <= hash
    requires block.Some? ==> forall k :: block.value < k < |index| ==> hash < index[k].firstHash
    requires block.Some? ==> |chunks| == |index| && Answers(chunks[block.value], hash, r)
    ensures Answers(Flatten(chunks), hash, r)
  {
    hide *;
    TableFacts(digest, table, chunks, index);
    forall j | 0 <= j < |chunks| ensures |chunks[j]| > 0 && index[j].firstHash == chunks[j][0].hash {
      BlockInTable(digest, table, chunks, index, j);
    }
    if block.None? {
      NowhereElse(chunks, hash);
    } else {
      OnlyThere(chunks, block.value, hash, r);
    }
  }

  // ---------------------------------------------------------------------------------------------
  // A local dictionary

  class SparseTerms {
    const index: seq<BlockRef>
    const bytes: seq<nat>
    /** Blocks decoded so far. */
    var decoded: map<nat, seq<Term>>

    ghost predicate Valid(digest: seq<nat> -> seq<nat>, chunks: seq<seq<Term>>)
      reads this
    {
      && IsTable(digest, bytes, chunks, index) && |index| == |chunks|
      && forall k :: k in decoded ==> k < |chunks| && decoded[k] == chunks[k]
    }

    constructor (index: seq<BlockRef>, bytes: seq<nat>, ghost digest: seq<nat> -> seq<nat>, ghost chunks: seq<seq<Term>>)
      requires IsTable(digest, bytes, chunks, index)
      ensures Valid(digest, chunks)
    {
      this.index, this.bytes, decoded := index, bytes, map[];
    }

    /** The entries of a block, decoded on first use and kept. */
    method LoadBlock(k: nat, ghost digest: seq<nat> -> seq<nat>, ghost chunks: seq<seq<Term>>) returns (r: Result<seq<Term>>)
      requires Valid(digest, chunks) && k < |index|
      modifies this
      ensures Valid(digest, chunks) && k < |chunks| && r == Ok(chunks[k]) && TermsOk(chunks[k])
    {
      hide IsTable, TermsOk, IsBlockOf, BlockBytes;
      BlockInTable(digest, bytes, chunks, index, k);
      if k in decoded {
        return Ok(decoded[k]);
      }
      var ref := index[k];
      BlockIsBytes(chunks[k]);
      var replayed := ForEachEntry(bytes[ref.offset..ref.offset + ref.len], chunks[k]);
      if replayed.Err? {
        return Err;
      }
      decoded := decoded[k := replayed.value];
      return replayed;
    }

    /** Find the block, decode it unless that was done before, and search its entries. */
    method Get(hash: nat, ghost digest: seq<nat> -> seq<nat>, ghost chunks: seq<seq<Term>>) returns (r: Result<Option<Term>>)
      requires Valid(digest, chunks)
      modifies this
      ensures Valid(digest, chunks)
      ensures r.Ok? && Answers(Flatten(chunks), hash, r.value)
    {
      hide *;
      ValidIsTable(digest, chunks);
      IndexAscends(digest, bytes, chunks, index);
      var block := BlockFor(index, hash);
      if block.None? {
        LookupIs(digest, bytes, chunks, index, hash, None, None);
        return Ok(None);
      }
      var entries := LoadBlock(block.value, digest, chunks);
      if entries.Err? {
        return Err;
      }
      var found := FindTerm(entries.value, hash);
      LookupIs(digest, bytes, chunks, index, hash, block, found);
      return Ok(found);
    }

    lemma ValidIsTable(digest: seq<nat> -> seq<nat>, chunks: seq<seq<Term>>)
      requires Valid(digest, chunks)
      ensures IsTable(digest, bytes, chunks, index) && |index| == |chunks|
    {
    }
  }

  lemma BlockIsBytes(ts: seq<Term>)
    requires TermsOk(ts)
    ensures Below(BlockBytes(ts), 256)
  {
  }

  // ---------------------------------------------------------------------------------------------
  // A remote dictionary

  /** Cached bytes that carry a block's digest are that block's bytes; anything else may be in the cache. */
  ghost predicate NoneForged(digest: seq<nat> -> seq<nat>, chunks: seq<seq<Term>>, index: seq<BlockRef>, cache: map<nat, seq<nat>>) {
    forall k :: k in cache && k < |index| && k < |chunks| && TermsOk(chunks[k]) && digest(cache[k]) == index[k].hash ==>
      cache[k] == BlockBytes(chunks[k])
  }

  lemma CachedIsGenuine(digest: seq<nat> -> seq<nat>, chunks: seq<seq<Term>>, index: seq<BlockRef>, cache: map<nat, seq<nat>>, k: nat)
    requires NoneForged(digest, chunks, index, cache) && k < |index| == |chunks| && TermsOk(chunks[k])
    ensures k in cache && digest(cache[k]) == index[k].hash ==> cache[k] == BlockBytes(chunks[k])
  {
  }

  /** `blocks` holds the true bytes of every listed block. */
  ghost predicate Fetched(chunks: seq<seq<Term>>, blocks: map<nat, seq<nat>>)
  {
    forall k :: k in blocks ==> k < |chunks| && chunks[k] != [] && TermsOk(chunks[k]) && blocks[k] == BlockBytes(chunks[k])
  }

  /** One block from the cache if its digest matches, else from the store by its range. */
  method FetchBlock(ref: BlockRef, cached: Option<seq<nat>>, store: seq<nat>, digest: seq<nat> -> seq<nat>, ghost expected: seq<nat>) returns (r: Result<seq<nat>>)
    requires ref.hash == digest(expected)
    requires cached.Some? && digest(cached.value) == ref.hash ==> cached.value == expected
    requires ref.offset + ref.len <= |store| && store[ref.offset..ref.offset + ref.len] == expected
    ensures r == Ok(expected)
  {
    if cached.Some? && digest(cached.value) == ref.hash {
      return Ok(cached.value);
    }
    var raw := store[ref.offset..ref.offset + ref.len];
    if digest(raw) != ref.hash {
      return Err;
    }
    return Ok(raw);
  }

  /**
   `fetch_gram_values`: every needed block once, whatever the block cache holds, then one answer per
   hash; a hash is in the result exactly when it was inserted.
   */
  method FetchGramValues(index: seq<BlockRef>, store: seq<nat>, cache: map<nat, seq<nat>>, hashes: seq<nat>,
                         digest: seq<nat> -> seq<nat>, ghost chunks: seq<seq<Term>>)
    returns (r: Result<map<nat, Term>>)
    requires IsTable(digest, store, chunks, index) && NoneForged(digest, chunks, index, cache)
    ensures r.Ok?
    ensures forall h :: h in r.value ==> h in hashes
    ensures forall h :: h in hashes ==> Answers(Flatten(chunks), h, if h in r.value then Some(r.value[h]) else None)
  {
    hide *;
    IndexAscends(digest, store, chunks, index);
    TableFacts(digest, store, chunks, index);
    var blocks := FetchNeeded(index, store, cache, hashes, digest, chunks);
    var decoded := DecodeBlocks(chunks, blocks);
    var values: map<nat, Term> := map[];
    NothingAsked(Flatten(chunks), hashes);
    for i := 0 to |hashes|
      invariant AnswersFor(Flatten(chunks), hashes[..i], values)
    {
      var hash := hashes[i];
      NextHash(hashes, i);
      var block := BlockFor(index, hash);
      var found: Option<Term> := None;
      if block.Some? {
        PointsIs(index, hash, block.value);
        DecodedAt(chunks, decoded, block.value);
        found := FindTerm(decoded[block.value], hash);
      }
      LookupIs(digest, store, chunks, index, hash, block, found);
      AnswersNext(Flatten(chunks), hashes, i, values, found);
      if found.Some? {
        values := values[hash := found.value];
      }
    }
    AllAnswered(Flatten(chunks), hashes, values);
    return Ok(values);
  }

  /** The result answers every hash asked for so far, and no other. */
  ghost predicate AnswersFor(all: seq<Term>, asked: seq<nat>, values: map<nat, Term>) {
    && (forall h :: h in values ==> h in asked)
    && (forall h :: h in asked ==> Answers(all, h, if h in values then Some(values[h]) else None))
  }

  lemma NothingAsked(all: seq<Term>, hashes: seq<nat>)
    ensures AnswersFor(all, hashes[..0], map[])
  {
  }

  lemma AnswersNext(all: seq<Term>, hashes: seq<nat>, i: nat, values: map<nat, Term>, found: Option<Term>)
    requires TermsOk(all) && i < |hashes| && AnswersFor(all, hashes[..i], values) && Answers(all, hashes[i], found)
    ensures AnswersFor(all, hashes[..i + 1], if found.Some? then values[hashes[i] := found.value] else values)
  {
    NextHash(hashes, i);
    if hashes[i] in hashes[..i] {
      AnswerUnique(all, hashes[i], found, if hashes[i] in values then Some(values[hashes[i]]) else None);
    }
    hide Answers, TermsOk;
  }

  lemma AllAnswered(all: seq<Term>, hashes: seq<nat>, values: map<nat, Term>)
    requires AnswersFor(all, hashes[..|hashes|], values)
    ensures forall h :: h in values ==> h in hashes
    ensures forall h :: h in hashes ==> Answers(all, h, if h in values then Some(values[h]) else None)
  {
    hide Answers;
    assert hashes[..|hashes|] == hashes;
  }

  lemma PointsIs(index: seq<BlockRef>, hash: nat, k: nat)
    requires k < |index| && index[k].firstHash <= hash && forall j :: k < j < |index| ==> hash < index[j].firstHash
    ensures Points(index, hash, k)
  {
  }

  lemma DecodedAt(chunks: seq<seq<Term>>, decoded: map<nat, seq<Term>>, k: nat)
    requires DecodedRight(chunks, decoded) && k in decoded
    ensures k < |chunks| && decoded[k] == chunks[k] && TermsOk(chunks[k])
  {
  }

  lemma NextHash(hashes: seq<nat>, i: nat)
    requires i < |hashes|
    ensures forall h :: h in hashes[..i + 1] <==> h in hashes[..i] || h == hashes[i]
    ensures hashes[i] in hashes
  {
    assert hashes[..i + 1] == hashes[..i] + [hashes[i]];
  }

  /** Asking twice for a hash gives the same answer. */
  lemma AnswerUnique(all: seq<Term>, hash: nat, a: Option<Term>, b: Option<Term>)
    requires TermsOk(all) && Answers(all, hash, a) && Answers(all, hash, b)
    ensures a == b
  {
    if a.Some? && b.Some? {
      var i: nat :| i < |all| && all[i] == a.value;
      var j: nat :| j < |all| && all[j] == b.value;
      OneIndex(all, i, j);
    }
  }

  lemma OneIndex(all: seq<Term>, i: nat, j: nat)
    requires TermsOk(all) && i < |all| && j < |all|
    ensures all[i].hash == all[j].hash ==> i == j
  {
  }

  /** Block `k` is the one the index points to for `hash`. */
  ghost predicate Points(index: seq<BlockRef>, hash: nat, k: nat) {
    k < |index| && index[k].firstHash <= hash && forall j :: k < j < |index| ==> hash < index[j].firstHash
  }

  ghost predicate DecodedRight(chunks: seq<seq<Term>>, decoded: map<nat, seq<Term>>) {
    forall k :: k in decoded ==> k < |chunks| && decoded[k] == chunks[k] && TermsOk(chunks[k])
  }

  /** The blocks of all hashes, each fetched once. */
  method FetchNeeded(index: seq<BlockRef>, store: seq<nat>, cache: map<nat, seq<nat>>, hashes: seq<nat>,
                     digest: seq<nat> -> seq<nat>, ghost chunks: seq<seq<Term>>)
    returns (blocks: map<nat, seq<nat>>)
    requires IsTable(digest, store, chunks, index) && NoneForged(digest, chunks, index, cache) && FirstsAscend(index)
    ensures Fetched(chunks, blocks)
    ensures forall h, k: nat :: h in hashes && Points(index, h, k) ==> k in blocks
  {
    hide IsTable, NoneForged, BlockBytes, TermsOk, IsBlockOf;
    blocks := map[];
    for i := 0 to |hashes|
      invariant Fetched(chunks, blocks)
      invariant forall h, k: nat :: h in hashes[..i] && Points(index, h, k) ==> k in blocks
    {
      NextHash(hashes, i);
      var block := BlockFor(index, hashes[i]);
      PointsUnique(index, hashes[i], block);
      if block.Some? && block.value !in blocks {
        BlockInTable(digest, store, chunks, index, block.value);
        CachedIsGenuine(digest, chunks, index, cache, block.value);
        var cached := if block.value in cache then Some(cache[block.value]) else None;
        var raw := FetchBlock(index[block.value], cached, store, digest, BlockBytes(chunks[block.value]));
        blocks := blocks[block.value := raw.value];
      }
    }
    assert hashes[..|hashes|] == hashes;
  }

  lemma PointsUnique(index: seq<BlockRef>, hash: nat, block: Option<nat>)
    requires block.None? ==> forall k :: 0 <= k < |index| ==> hash < index[k].firstHash
    requires block.Some? ==> Points(index, hash, block.value)
    ensures forall k: nat :: Points(index, hash, k) ==> block == Some(k)
  {
  }

  /** Decode each fetched block exactly once. */
  method DecodeBlocks(ghost chunks: seq<seq<Term>>, blocks: map<nat, seq<nat>>) returns (decoded: map<nat, seq<Term>>)
    requires Fetched(chunks, blocks)
    ensures DecodedRight(chunks, decoded) && decoded.Keys == blocks.Keys
  {
    decoded := map[];
    var keys := blocks.Keys;
    hide BlockBytes, TermsOk;
    while keys != {}
      invariant keys <= blocks.Keys && DecodedRight(chunks, decoded) && decoded.Keys == blocks.Keys - keys
      decreases keys
    {
      var k :| k in keys;
      BlockIsBytes(chunks[k]);
      var entries := ForEachEntry(blocks[k], chunks[k]);
      decoded := decoded[k := entries.value];
      keys := keys - {k};
    }
  }
}
