/**
 Fetching pack blocks (`block_runs`, `run_batches`, `visit_blocks` and `fetch_large` in
 crates/index/src/pack.rs): neighbouring blocks are read as one range, a disk cache may serve any run
 whose blocks all verify, and neither changes the bytes or their order.
 */
module PackFetch {
  import opened Wrappers
  import opened Slices
  import opened PackRead
  import opened PackBuild
  import PackDocuments

  /** Consecutive blocks of one pack, fetched as one range. */
  datatype Run = Run(pack: nat, offset: nat, len: nat, ids: seq<nat>)

  /** Compressed bytes on disk, by the digest of the pack they come from and their offset in it. */
  type DiskCache = map<(nat, nat), seq<Byte>>

  // ---------------------------------------------------------------------------------------------
  // Runs

  /** Compressed length of the first `k` blocks of a list. */
  function Width(blocks: seq<PackBlock>, ids: seq<nat>, k: nat): nat
    requires k <= |ids| && forall i :: 0 <= i < |ids| ==> ids[i] < |blocks|
  {
    if k == 0 then 0 else Width(blocks, ids, k - 1) + blocks[ids[k - 1]].compressedLen
  }

  ghost predicate InTable(blocks: seq<PackBlock>, ids: seq<nat>) {
    forall i :: 0 <= i < |ids| ==> ids[i] < |blocks|
  }

  /** The blocks of a run lie end to end in its range. */
  ghost predicate RunOk(blocks: seq<PackBlock>, run: Run) {
    && run.ids != [] && InTable(blocks, run.ids)
    && run.len == Width(blocks, run.ids, |run.ids|)
    && forall k :: 0 <= k < |run.ids| ==>
         && blocks[run.ids[k]].pack == run.pack
         && blocks[run.ids[k]].offset == run.offset + Width(blocks, run.ids, k)
  }

  ghost predicate RunsOk(blocks: seq<PackBlock>, runs: seq<Run>) {
    forall k :: 0 <= k < |runs| ==> RunOk(blocks, runs[k])
  }

  /** Every block the runs name, in order. */
  function Ids(runs: seq<Run>): seq<nat> {
    if runs == [] then [] else Ids(runs[..|runs| - 1]) + runs[|runs| - 1].ids
  }

  lemma IdsNext(runs: seq<Run>, run: Run)
    ensures Ids(runs + [run]) == Ids(runs) + run.ids
  {
    assert (runs + [run])[..|runs|] == runs;
  }

  lemma {:induction false} WidthPrefix(blocks: seq<PackBlock>, ids: seq<nat>, more: seq<nat>, k: nat)
    requires k <= |ids| && InTable(blocks, ids) && InTable(blocks, ids + more)
    ensures Width(blocks, ids + more, k) == Width(blocks, ids, k)
  {
    if k > 0 {
      WidthPrefix(blocks, ids, more, k - 1);
    }
  }

  /** Block `k` of a run continues its predecessors. */
  ghost predicate InRun(blocks: seq<PackBlock>, run: Run, k: nat)
    requires k < |run.ids| && InTable(blocks, run.ids)
  {
    blocks[run.ids[k]].pack == run.pack && blocks[run.ids[k]].offset == run.offset + Width(blocks, run.ids, k)
  }

  lemma RunGrows(blocks: seq<PackBlock>, run: Run, id: nat)
    requires RunOk(blocks, run) && id < |blocks|
    requires blocks[id].pack == run.pack && run.offset + run.len == blocks[id].offset
    ensures RunOk(blocks, Run(run.pack, run.offset, run.len + blocks[id].compressedLen, run.ids + [id]))
  {
    hide *;
    var next := Run(run.pack, run.offset, run.len + blocks[id].compressedLen, run.ids + [id]);
    RunFacts(blocks, run);
    TableGrows(blocks, run.ids, id);
    WidthNext(blocks, run.ids, id);
    forall k | 0 <= k < |next.ids| ensures InRun(blocks, next, k) {
      InRunGrows(blocks, run, id, k);
    }
    IsRun(blocks, next);
  }

  lemma TableGrows(blocks: seq<PackBlock>, ids: seq<nat>, id: nat)
    requires InTable(blocks, ids) && id < |blocks|
    ensures InTable(blocks, ids + [id])
  {
  }

  lemma WidthNext(blocks: seq<PackBlock>, ids: seq<nat>, id: nat)
    requires InTable(blocks, ids) && InTable(blocks, ids + [id])
    ensures id < |blocks| && Width(blocks, ids + [id], |ids| + 1) == Width(blocks, ids, |ids|) + blocks[id].compressedLen
  {
    assert (ids + [id])[|ids|] == id;
    WidthPrefix(blocks, ids, [id], |ids|);
  }

  lemma RunFacts(blocks: seq<PackBlock>, run: Run)
    requires RunOk(blocks, run)
    ensures run.ids != [] && InTable(blocks, run.ids) && run.len == Width(blocks, run.ids, |run.ids|)
    ensures forall k :: 0 <= k < |run.ids| ==> InRun(blocks, run, k)
  {
  }

  lemma IsRun(blocks: seq<PackBlock>, run: Run)
    requires run.ids != [] && InTable(blocks, run.ids) && run.len == Width(blocks, run.ids, |run.ids|)
    requires forall k :: 0 <= k < |run.ids| ==> InRun(blocks, run, k)
    ensures RunOk(blocks, run)
  {
    hide Width;
    forall k | 0 <= k < |run.ids|
      ensures blocks[run.ids[k]].pack == run.pack && blocks[run.ids[k]].offset == run.offset + Width(blocks, run.ids, k)
    {
      assert InRun(blocks, run, k);
    }
  }

  lemma InRunGrows(blocks: seq<PackBlock>, run: Run, id: nat, k: nat)
    requires k <= |run.ids| && InTable(blocks, run.ids) && InTable(blocks, run.ids + [id]) && id < |blocks|
    requires blocks[id].pack == run.pack && blocks[id].offset == run.offset + Width(blocks, run.ids, |run.ids|)
    requires k < |run.ids| ==> InRun(blocks, run, k)
    ensures InRun(blocks, Run(run.pack, run.offset, run.len + blocks[id].compressedLen, run.ids + [id]), k)
  {
    hide Width, InTable;
    WidthPrefix(blocks, run.ids, [id], k);
  }

  lemma SingleRun(blocks: seq<PackBlock>, id: nat)
    requires id < |blocks|
    ensures RunOk(blocks, Run(blocks[id].pack, blocks[id].offset, blocks[id].compressedLen, [id]))
  {
    assert Width(blocks, [id], 1) == Width(blocks, [id], 0) + blocks[id].compressedLen;
  }

  ghost predicate Bounded(run: Run, rangeBytes: nat) {
    |run.ids| > 1 ==> run.len <= rangeBytes
  }

  /** The next block could have joined the run. */
  predicate Joins(run: Run, block: PackBlock, rangeBytes: nat) {
    run.pack == block.pack && run.offset + run.len == block.offset && run.len + block.compressedLen <= rangeBytes
  }

  /** Every run but the last ends because the block after it could not have joined. */
  ghost predicate Coalesced(runs: seq<Run>, blocks: seq<PackBlock>, rangeBytes: nat) {
    forall k :: 0 < k < |runs| ==> runs[k].ids != [] && runs[k].ids[0] < |blocks| && !Joins(runs[k - 1], blocks[runs[k].ids[0]], rangeBytes)
  }

  lemma CoalescedLonger(runs: seq<Run>, blocks: seq<PackBlock>, rangeBytes: nat, longer: Run)
    requires runs != [] && Coalesced(runs, blocks, rangeBytes)
    requires |runs| > 1 ==> longer.ids != [] && runs[|runs| - 1].ids != [] && longer.ids[0] == runs[|runs| - 1].ids[0]
    ensures Coalesced(runs[..|runs| - 1] + [longer], blocks, rangeBytes)
  {
    hide Joins;
  }

  lemma CoalescedNext(runs: seq<Run>, blocks: seq<PackBlock>, rangeBytes: nat, run: Run)
    requires Coalesced(runs, blocks, rangeBytes) && run.ids != [] && run.ids[0] < |blocks|
    requires runs != [] ==> !Joins(runs[|runs| - 1], blocks[run.ids[0]], rangeBytes)
    ensures Coalesced(runs + [run], blocks, rangeBytes)
  {
    hide Joins;
  }

  lemma RunHasIds(blocks: seq<PackBlock>, run: Run)
    requires RunOk(blocks, run)
    ensures run.ids != []
  {
  }

  /** `block_runs`: coalesce neighbours, never past the range limit; no block is lost, added or moved. */
  method BlockRuns(ids: seq<nat>, blocks: seq<PackBlock>, rangeBytes: nat) returns (r: Result<seq<Run>>)
    ensures r.Ok? <==> forall k :: 0 <= k < |ids| ==> ids[k] < |blocks|
    ensures r.Ok? ==> RunsOk(blocks, r.value) && Ids(r.value) == ids
    ensures r.Ok? ==> forall k :: 0 <= k < |r.value| ==> Bounded(r.value[k], rangeBytes)
    ensures r.Ok? ==> Coalesced(r.value, blocks, rangeBytes)
  {
    hide RunOk, Ids, Coalesced;
    assert Coalesced([], blocks, rangeBytes) by { NoneCoalesced(blocks, rangeBytes); }
    var runs: seq<Run> := [];
    assert Ids(runs) == ids[..0] by { NoRuns(); }
    for k := 0 to |ids|
      invariant forall i :: 0 <= i < k ==> ids[i] < |blocks|
      invariant RunsOk(blocks, runs) && Ids(runs) == ids[..k]
      invariant forall i :: 0 <= i < |runs| ==> Bounded(runs[i], rangeBytes)
      invariant Coalesced(runs, blocks, rangeBytes)
    {
      if ids[k] >= |blocks| {
        return Err;
      }
      var block, n := blocks[ids[k]], |runs| - 1;
      TakeNext(ids, k);
      if n >= 0 && runs[n].pack == block.pack && runs[n].offset + runs[n].len == block.offset
         && runs[n].len + block.compressedLen <= rangeBytes {
        var run := runs[n];
        var longer := Run(run.pack, run.offset, run.len + block.compressedLen, run.ids + [ids[k]]);
        RunGrows(blocks, run, ids[k]);
        RunHasIds(blocks, run);
        CoalescedLonger(runs, blocks, rangeBytes, longer);
        SplitLast(runs);
        IdsNext(runs[..n], run);
        IdsNext(runs[..n], longer);
        Associative(Ids(runs[..n]), run.ids, [ids[k]]);
        runs := runs[..n] + [longer];
      } else {
        var run := Run(block.pack, block.offset, block.compressedLen, [ids[k]]);
        SingleRun(blocks, ids[k]);
        CoalescedNext(runs, blocks, rangeBytes, run);
        IdsNext(runs, run);
        runs := runs + [run];
      }
    }
    WholeTake(ids);
    return Ok(runs);
  }

  lemma NoneCoalesced(blocks: seq<PackBlock>, rangeBytes: nat)
    ensures Coalesced([], blocks, rangeBytes)
  {
  }

  lemma NoRuns()
    ensures Ids([]) == []
  {
  }

  lemma WholeTake<T>(x: seq<T>)
    ensures x[..|x|] == x
  {
  }

  // ---------------------------------------------------------------------------------------------
  // Verified blocks

  /** Any set of byte strings that holds the stored blocks and the cached ones. */
  type InPlay = iset<seq<Byte>>

  /** The compressed bytes the table places in the packs. */
  function StoredBytes(packs: seq<seq<Byte>>, b: PackBlock): Option<seq<Byte>> {
    if b.pack >= |packs| || b.offset + b.compressedLen > |packs[b.pack]| then None
    else Some(packs[b.pack][b.offset..b.offset + b.compressedLen])
  }

  ghost predicate HasBlocks(p: InPlay, blocks: seq<PackBlock>, packs: seq<seq<Byte>>) {
    forall id :: 0 <= id < |blocks| && StoredBytes(packs, blocks[id]).Some? ==> StoredBytes(packs, blocks[id]).value in p
  }

  ghost predicate HasCached(p: InPlay, cache: Option<DiskCache>) {
    cache.Some? ==> forall key :: key in cache.value ==> cache.value[key] in p
  }

  ghost function Playing(blocks: seq<PackBlock>, packs: seq<seq<Byte>>, cache: Option<DiskCache>): InPlay {
    iset bytes: seq<Byte> |
      (exists id :: 0 <= id < |blocks| && StoredBytes(packs, blocks[id]) == Some(bytes)) ||
      (cache.Some? && bytes in cache.value.Values)
  }

  lemma PlayingHas(blocks: seq<PackBlock>, packs: seq<seq<Byte>>, cache: Option<DiskCache>)
    ensures HasBlocks(Playing(blocks, packs, cache), blocks, packs)
    ensures HasCached(Playing(blocks, packs, cache), cache)
  {
  }

  /** Of the bytes in play, only a block's own carry its digest. */
  ghost predicate NoneForged(z: Codec, p: InPlay, blocks: seq<PackBlock>, packs: seq<seq<Byte>>) {
    forall id, bytes :: 0 <= id < |blocks| && bytes in p && Verifies(z, blocks[id], bytes) ==> StoredBytes(packs, blocks[id]) == Some(bytes)
  }

  /** Compressed bytes whose digest is the one the block table records. */
  predicate Verifies(z: Codec, block: PackBlock, bytes: seq<Byte>) { z.digest(bytes) == block.hash }

  ghost predicate Vouched(z: Codec, p: InPlay, block: PackBlock, bytes: seq<Byte>) {
    Verifies(z, block, bytes) && bytes in p
  }

  /** One verified entry per block of the run. */
  ghost predicate Resolves(z: Codec, p: InPlay, blocks: seq<PackBlock>, ids: seq<nat>, parts: seq<seq<Byte>>) {
    && |parts| == |ids| && InTable(blocks, ids)
    && forall k :: 0 <= k < |ids| ==> Vouched(z, p, blocks[ids[k]], parts[k])
  }

  /** Decoded bytes that come from compressed bytes with the recorded digest. */
  ghost predicate Authentic(z: Codec, p: InPlay, block: PackBlock, decoded: seq<Byte>) {
    exists bytes :: Vouched(z, p, block, bytes) && z.decompress(bytes) == Some(decoded) && |decoded| == block.decodedLen
  }

  /** The visited blocks are exactly `ids`, in order, each authentic. */
  ghost predicate Visits(z: Codec, p: InPlay, blocks: seq<PackBlock>, ids: seq<nat>, visited: seq<(nat, seq<Byte>)>) {
    && |visited| == |ids| && InTable(blocks, ids)
    && forall k :: 0 <= k < |ids| ==> visited[k].0 == ids[k] && Authentic(z, p, blocks[ids[k]], visited[k].1)
  }

  /** The packs hold what the table says, and no bytes in play are forged. */
  ghost predicate Sound(z: Codec, p: InPlay, decoded: seq<seq<Byte>>, blocks: seq<PackBlock>, packs: seq<seq<Byte>>) {
    Stored(z, decoded, blocks, packs) && NoneForged(z, p, blocks, packs)
  }

  lemma VerifiedDecodes(z: Codec, p: InPlay, decoded: seq<seq<Byte>>, blocks: seq<PackBlock>, packs: seq<seq<Byte>>, id: nat, bytes: seq<Byte>)
    requires Sound(z, p, decoded, blocks, packs) && id < |blocks| && Vouched(z, p, blocks[id], bytes)
    ensures id < |decoded| && z.decompress(bytes) == Some(decoded[id]) && |decoded[id]| == blocks[id].decodedLen
  {
    assert ReadBlock(z, packs, blocks[id]) == Some(decoded[id]);
  }

  /** Authentic bytes are the stored ones. */
  lemma VisitedAreStored(z: Codec, p: InPlay, decoded: seq<seq<Byte>>, blocks: seq<PackBlock>, packs: seq<seq<Byte>>, ids: seq<nat>, visited: seq<(nat, seq<Byte>)>)
    requires Sound(z, p, decoded, blocks, packs) && Visits(z, p, blocks, ids, visited)
    ensures forall k :: 0 <= k < |visited| ==> visited[k].0 < |decoded| && visited[k].1 == decoded[visited[k].0]
  {
    hide Sound;
    forall k | 0 <= k < |visited| ensures visited[k].0 < |decoded| && visited[k].1 == decoded[visited[k].0] {
      var bytes :| Vouched(z, p, blocks[ids[k]], bytes) && z.decompress(bytes) == Some(visited[k].1);
      VerifiedDecodes(z, p, decoded, blocks, packs, ids[k], bytes);
    }
  }

  /** `visit_compressed_block` over a run. */
  method VisitRun(z: Codec, ghost p: InPlay, ghost packs: seq<seq<Byte>>, blocks: seq<PackBlock>, ids: seq<nat>, parts: seq<seq<Byte>>)
    returns (r: Result<seq<(nat, seq<Byte>)>>)
    requires Resolves(z, p, blocks, ids, parts)
    ensures r.Ok? ==> Visits(z, p, blocks, ids, r.value)
    ensures forall decoded :: Sound(z, p, decoded, blocks, packs) ==> r.Ok?
  {
    hide Sound;
    var visited: seq<(nat, seq<Byte>)> := [];
    for k := 0 to |ids|
      invariant |visited| == k
      invariant forall i :: 0 <= i < k ==> visited[i].0 == ids[i] && Authentic(z, p, blocks[ids[i]], visited[i].1)
    {
      var block := blocks[ids[k]];
      var decoded := z.decompress(parts[k]);
      if decoded.None? || |decoded.value| != block.decodedLen {
        forall all | Sound(z, p, all, blocks, packs) ensures false {
          VerifiedDecodes(z, p, all, blocks, packs, ids[k], parts[k]);
        }
        return Err;
      }
      assert Vouched(z, p, block, parts[k]);
      visited := visited + [(ids[k], decoded.value)];
    }
    return Ok(visited);
  }

  // ---------------------------------------------------------------------------------------------
  // Cache and fetch

  function CacheKey(z: Codec, pack: seq<Byte>, block: PackBlock): (nat, nat) { (z.digest(pack), block.offset) }

  /** The cache has the block, with the right digest. */
  predicate OnDisk(z: Codec, pack: seq<Byte>, block: PackBlock, cache: DiskCache) {
    var key := CacheKey(z, pack, block);
    key in cache && Verifies(z, block, cache[key])
  }

  /** A run is a hit exactly when every block is on disk with the right digest. */
  method ReadRun(z: Codec, ghost p: InPlay, pack: seq<Byte>, blocks: seq<PackBlock>, cache: Option<DiskCache>, run: Run)
    returns (r: Option<seq<seq<Byte>>>)
    requires RunOk(blocks, run) && HasCached(p, cache)
    ensures r.Some? ==> Resolves(z, p, blocks, run.ids, r.value)
    ensures r.Some? <==> cache.Some? && forall k :: 0 <= k < |run.ids| ==> OnDisk(z, pack, blocks[run.ids[k]], cache.value)
  {
    hide *;
    RunInTable(blocks, run);
    if cache.None? {
      return None;
    }
    var parts: seq<seq<Byte>> := [];
    for k := 0 to |run.ids|
      invariant |parts| == k && forall i :: 0 <= i < k ==> Vouched(z, p, blocks[run.ids[i]], parts[i])
      invariant forall i :: 0 <= i < k ==> OnDisk(z, pack, blocks[run.ids[i]], cache.value)
    {
      var block := blocks[run.ids[k]];
      var key := CacheKey(z, pack, block);
      OnDiskIs(z, p, pack, block, cache.value);
      if key !in cache.value || !Verifies(z, block, cache.value[key]) {
        return None;
      }
      OneMore(z, p, blocks, run.ids, k, parts, cache.value[key]);
      parts := parts + [cache.value[key]];
    }
    IsResolved(z, p, blocks, run.ids, parts);
    return Some(parts);
  }

  lemma IsResolved(z: Codec, p: InPlay, blocks: seq<PackBlock>, ids: seq<nat>, parts: seq<seq<Byte>>)
    requires |parts| == |ids| && forall i :: 0 <= i < |ids| ==> ids[i] < |blocks|
    requires forall i :: 0 <= i < |ids| ==> Vouched(z, p, blocks[ids[i]], parts[i])
    ensures Resolves(z, p, blocks, ids, parts)
  {
  }

  lemma OnDiskIs(z: Codec, p: InPlay, pack: seq<Byte>, block: PackBlock, cache: DiskCache)
    requires HasCached(p, Some(cache))
    ensures var key := CacheKey(z, pack, block);
      && (OnDisk(z, pack, block, cache) <==> key in cache && Verifies(z, block, cache[key]))
      && (OnDisk(z, pack, block, cache) ==> Vouched(z, p, block, cache[key]))
  {
  }

  /** Every entry of `after` that is new or changed is a verified block of the table. */
  ghost predicate OnlyVerified(z: Codec, p: InPlay, blocks: seq<PackBlock>, before: Option<DiskCache>, after: Option<DiskCache>) {
    && (before.Some? <==> after.Some?) && (HasCached(p, before) ==> HasCached(p, after))
    && (before.Some? ==> forall key :: key in after.value ==> Kept(before.value, key, after.value[key]) || FromTable(z, blocks, after.value[key]))
  }

  ghost predicate Kept(before: DiskCache, key: (nat, nat), bytes: seq<Byte>) { key in before && before[key] == bytes }

  ghost predicate FromTable(z: Codec, blocks: seq<PackBlock>, bytes: seq<Byte>) {
    exists id :: 0 <= id < |blocks| && Verifies(z, blocks[id], bytes)
  }

  function WriteBack(z: Codec, pack: seq<Byte>, cache: Option<DiskCache>, block: PackBlock, bytes: seq<Byte>): Option<DiskCache> {
    if cache.None? then None else Some(cache.value[CacheKey(z, pack, block) := bytes])
  }

  /** Cut a fetched range into its blocks; each is checked before it is kept or written to the cache. */
  method SplitRun(z: Codec, ghost p: InPlay, ghost packs: seq<seq<Byte>>, pack: seq<Byte>, blocks: seq<PackBlock>, run: Run, bytes: seq<Byte>, cache: Option<DiskCache>)
    returns (r: Result<seq<seq<Byte>>>, cache': Option<DiskCache>)
    requires RunOk(blocks, run) && |bytes| == run.len && HasBlocks(p, blocks, packs)
    requires run.pack < |packs| && pack == packs[run.pack]
    requires run.offset + run.len <= |pack| && bytes == pack[run.offset..run.offset + run.len]
    ensures r.Ok? ==> Resolves(z, p, blocks, run.ids, r.value)
    ensures forall decoded :: Sound(z, p, decoded, blocks, packs) ==> r.Ok?
    ensures OnlyVerified(z, p, blocks, cache, cache')
  {
    hide *;
    var parts: seq<seq<Byte>>, cursor: nat := [], 0;
    cache' := cache;
    CacheStays(z, p, blocks, cache);
    SplitStarts(z, p, blocks, run);
    for k := 0 to |run.ids|
      invariant Cut(z, p, blocks, run, k, parts, cursor) && OnlyVerified(z, p, blocks, cache, cache')
    {
      CutFits(z, p, blocks, run, k, parts, cursor);
      var block := blocks[run.ids[k]];
      var end := cursor + block.compressedLen;
      var compressed := bytes[cursor..end];
      SliceOfSlice(pack, run.offset, run.offset + run.len, cursor, end);
      BlockInPlay(p, blocks, packs, run.ids[k]);
      if !Verifies(z, block, compressed) {
        forall decoded | Sound(z, p, decoded, blocks, packs) ensures false {
          StoredVerifies(z, p, decoded, blocks, packs, run.ids[k]);
        }
        return Err, cache';
      }
      ghost var was := cache';
      cache' := WriteBack(z, pack, cache', block, compressed);
      WriteVerified(z, p, pack, blocks, was, run.ids[k], compressed);
      VerifiedChain(z, p, blocks, cache, was, cache');
      IsVouched(z, p, block, compressed);
      CutNext(z, p, blocks, run, k, parts, cursor, compressed);
      parts := parts + [compressed];
      cursor := end;
    }
    CutAll(z, p, blocks, run, parts, cursor);
    return Ok(parts), cache';
  }

  /** The first `k` blocks of the run are cut off and verified. */
  ghost predicate Cut(z: Codec, p: InPlay, blocks: seq<PackBlock>, run: Run, k: nat, parts: seq<seq<Byte>>, cursor: nat)
    requires RunOk(blocks, run)
  {
    && |parts| == k <= |run.ids| && cursor == Width(blocks, run.ids, k)
    && forall i :: 0 <= i < k ==> Vouched(z, p, blocks[run.ids[i]], parts[i])
  }

  /** A block inside its pack is in play. */
  lemma BlockInPlay(p: InPlay, blocks: seq<PackBlock>, packs: seq<seq<Byte>>, id: nat)
    requires HasBlocks(p, blocks, packs) && id < |blocks|
    ensures var b := blocks[id];
      b.pack < |packs| && b.offset + b.compressedLen <= |packs[b.pack]| ==> packs[b.pack][b.offset..b.offset + b.compressedLen] in p
  {
  }

  lemma SplitStarts(z: Codec, p: InPlay, blocks: seq<PackBlock>, run: Run)
    requires RunOk(blocks, run)
    ensures Cut(z, p, blocks, run, 0, [], 0)
  {
  }

  lemma CutFits(z: Codec, p: InPlay, blocks: seq<PackBlock>, run: Run, k: nat, parts: seq<seq<Byte>>, cursor: nat)
    requires RunOk(blocks, run) && Cut(z, p, blocks, run, k, parts, cursor) && k < |run.ids|
    ensures run.ids[k] < |blocks| && cursor + blocks[run.ids[k]].compressedLen <= run.len
    ensures blocks[run.ids[k]].pack == run.pack && blocks[run.ids[k]].offset == run.offset + cursor
  {
    hide *;
    RunFacts(blocks, run);
    CutCursor(z, p, blocks, run, k, parts, cursor);
    WidthGrows(blocks, run.ids, k + 1, |run.ids|);
    BlockInRun(blocks, run, k);
  }

  lemma CutCursor(z: Codec, p: InPlay, blocks: seq<PackBlock>, run: Run, k: nat, parts: seq<seq<Byte>>, cursor: nat)
    requires RunOk(blocks, run) && Cut(z, p, blocks, run, k, parts, cursor)
    ensures InTable(blocks, run.ids) && k <= |run.ids| && cursor == Width(blocks, run.ids, k)
  {
  }

  lemma BlockInRun(blocks: seq<PackBlock>, run: Run, k: nat)
    requires InTable(blocks, run.ids) && k < |run.ids| && InRun(blocks, run, k)
    ensures run.ids[k] < |blocks| && blocks[run.ids[k]].pack == run.pack
    ensures blocks[run.ids[k]].offset == run.offset + Width(blocks, run.ids, k)
    ensures Width(blocks, run.ids, k + 1) == Width(blocks, run.ids, k) + blocks[run.ids[k]].compressedLen
  {
  }

  lemma CutNext(z: Codec, p: InPlay, blocks: seq<PackBlock>, run: Run, k: nat, parts: seq<seq<Byte>>, cursor: nat, part: seq<Byte>)
    requires RunOk(blocks, run) && Cut(z, p, blocks, run, k, parts, cursor) && k < |run.ids|
    requires run.ids[k] < |blocks| && Vouched(z, p, blocks[run.ids[k]], part)
    ensures Cut(z, p, blocks, run, k + 1, parts + [part], cursor + blocks[run.ids[k]].compressedLen)
  {
    RunInTable(blocks, run);
    hide RunOk, Vouched;
    OneMore(z, p, blocks, run.ids, k, parts, part);
  }

  lemma OneMore(z: Codec, p: InPlay, blocks: seq<PackBlock>, ids: seq<nat>, k: nat, parts: seq<seq<Byte>>, part: seq<Byte>)
    requires InTable(blocks, ids) && |parts| == k < |ids| && Vouched(z, p, blocks[ids[k]], part)
    requires forall i :: 0 <= i < k ==> Vouched(z, p, blocks[ids[i]], parts[i])
    ensures forall i :: 0 <= i < k + 1 ==> Vouched(z, p, blocks[ids[i]], (parts + [part])[i])
  {
    hide Vouched;
  }

  lemma IsVouched(z: Codec, p: InPlay, block: PackBlock, bytes: seq<Byte>)
    requires Verifies(z, block, bytes) && bytes in p
    ensures Vouched(z, p, block, bytes)
  {
  }

  lemma RunInTable(blocks: seq<PackBlock>, run: Run)
    requires RunOk(blocks, run)
    ensures InTable(blocks, run.ids) && forall i :: 0 <= i < |run.ids| ==> run.ids[i] < |blocks|
  {
  }

  lemma CutAll(z: Codec, p: InPlay, blocks: seq<PackBlock>, run: Run, parts: seq<seq<Byte>>, cursor: nat)
    requires RunOk(blocks, run) && Cut(z, p, blocks, run, |run.ids|, parts, cursor)
    ensures Resolves(z, p, blocks, run.ids, parts)
  {
  }

  lemma WriteVerified(z: Codec, p: InPlay, pack: seq<Byte>, blocks: seq<PackBlock>, cache: Option<DiskCache>, id: nat, bytes: seq<Byte>)
    requires id < |blocks| && Verifies(z, blocks[id], bytes) && bytes in p
    ensures OnlyVerified(z, p, blocks, cache, WriteBack(z, pack, cache, blocks[id], bytes))
  {
  }

  lemma StoredVerifies(z: Codec, p: InPlay, decoded: seq<seq<Byte>>, blocks: seq<PackBlock>, packs: seq<seq<Byte>>, id: nat)
    requires Sound(z, p, decoded, blocks, packs) && id < |blocks|
    ensures var b := blocks[id];
      b.pack < |packs| && b.offset + b.compressedLen <= |packs[b.pack]| && Verifies(z, b, packs[b.pack][b.offset..b.offset + b.compressedLen])
  {
    assert ReadBlock(z, packs, blocks[id]) == Some(decoded[id]);
  }

  lemma {:induction false} WidthGrows(blocks: seq<PackBlock>, ids: seq<nat>, j: nat, k: nat)
    requires InTable(blocks, ids) && j <= k <= |ids|
    ensures Width(blocks, ids, j) <= Width(blocks, ids, k)
    decreases k
  {
    if j < k {
      WidthGrows(blocks, ids, j, k - 1);
    }
  }

  /** A stored run ends inside its pack. */
  lemma RunInPack(z: Codec, p: InPlay, decoded: seq<seq<Byte>>, blocks: seq<PackBlock>, packs: seq<seq<Byte>>, run: Run)
    requires Sound(z, p, decoded, blocks, packs) && RunOk(blocks, run)
    ensures run.pack < |packs| && run.offset + run.len <= |packs[run.pack]|
  {
    hide Sound;
    var last := run.ids[|run.ids| - 1];
    StoredVerifies(z, p, decoded, blocks, packs, last);
  }

  // ---------------------------------------------------------------------------------------------
  // One batch of runs of one pack

  /** Hits resolve their run; misses are `None` until fetched. */
  ghost predicate HitsResolve(z: Codec, p: InPlay, blocks: seq<PackBlock>, batch: seq<Run>, resolved: seq<Option<seq<seq<Byte>>>>) {
    |resolved| == |batch| && forall k :: 0 <= k < |batch| && resolved[k].Some? ==> Resolves(z, p, blocks, batch[k].ids, resolved[k].value)
  }

  method ReadHits(z: Codec, ghost p: InPlay, pack: seq<Byte>, blocks: seq<PackBlock>, cache: Option<DiskCache>, batch: seq<Run>)
    returns (resolved: seq<Option<seq<seq<Byte>>>>)
    requires RunsOk(blocks, batch) && HasCached(p, cache)
    ensures HitsResolve(z, p, blocks, batch, resolved)
  {
    hide RunOk, Resolves;
    resolved := [];
    for k := 0 to |batch|
      invariant |resolved| == k
      invariant forall i :: 0 <= i < k && resolved[i].Some? ==> Resolves(z, p, blocks, batch[i].ids, resolved[i].value)
    {
      var hit := ReadRun(z, p, pack, blocks, cache, batch[k]);
      resolved := resolved + [hit];
    }
  }

  ghost predicate OnePack(batch: seq<Run>, pack: nat) {
    forall k :: 0 <= k < |batch| ==> batch[k].pack == pack
  }

  /** Fetch every missing run; all ranges are checked before any is read. */
  method FetchMisses(z: Codec, ghost p: InPlay, packs: seq<seq<Byte>>, packId: nat, blocks: seq<PackBlock>, batch: seq<Run>,
                     hits: seq<Option<seq<seq<Byte>>>>, cache: Option<DiskCache>)
    returns (r: Result<seq<Option<seq<seq<Byte>>>>>, cache': Option<DiskCache>)
    requires RunsOk(blocks, batch) && OnePack(batch, packId) && packId < |packs| && HitsResolve(z, p, blocks, batch, hits) && HasBlocks(p, blocks, packs)
    ensures r.Ok? ==> HitsResolve(z, p, blocks, batch, r.value) && forall k :: 0 <= k < |batch| ==> r.value[k].Some?
    ensures forall decoded :: Sound(z, p, decoded, blocks, packs) ==> r.Ok?
    ensures OnlyVerified(z, p, blocks, cache, cache')
  {
    hide RunOk, Resolves, Sound, OnlyVerified;
    var pack := packs[packId];
    CacheStays(z, p, blocks, cache);
    for k := 0 to |batch|
      invariant forall i :: 0 <= i < k && hits[i].None? ==> batch[i].offset + batch[i].len <= |pack|
    {
      if hits[k].None? && batch[k].offset + batch[k].len > |pack| {
        forall decoded | Sound(z, p, decoded, blocks, packs) ensures false {
          RunInPack(z, p, decoded, blocks, packs, batch[k]);
        }
        return Err, cache;
      }
    }
    var resolved := hits;
    cache' := cache;
    for k := 0 to |batch|
      invariant HitsResolve(z, p, blocks, batch, resolved) && OnlyVerified(z, p, blocks, cache, cache')
      invariant forall i :: 0 <= i < k ==> resolved[i].Some?
      invariant forall i :: k <= i < |batch| ==> resolved[i] == hits[i]
    {
      if hits[k].None? {
        var run := batch[k];
        var part: Result<seq<seq<Byte>>>;
        ghost var was := cache';
        part, cache' := SplitRun(z, p, packs, pack, blocks, run, pack[run.offset..run.offset + run.len], cache');
        VerifiedChain(z, p, blocks, cache, was, cache');
        if part.Err? {
          return Err, cache';
        }
        resolved := resolved[k := Some(part.value)];
      }
    }
    return Ok(resolved), cache';
  }

  lemma CacheStays(z: Codec, p: InPlay, blocks: seq<PackBlock>, cache: Option<DiskCache>)
    ensures OnlyVerified(z, p, blocks, cache, cache)
  {
  }

  lemma CachedStays(z: Codec, p: InPlay, blocks: seq<PackBlock>, before: Option<DiskCache>, after: Option<DiskCache>)
    requires OnlyVerified(z, p, blocks, before, after) && HasCached(p, before)
    ensures HasCached(p, after)
  {
  }

  lemma VerifiedChain(z: Codec, p: InPlay, blocks: seq<PackBlock>, a: Option<DiskCache>, b: Option<DiskCache>, c: Option<DiskCache>)
    requires OnlyVerified(z, p, blocks, a, b) && OnlyVerified(z, p, blocks, b, c)
    ensures OnlyVerified(z, p, blocks, a, c)
  {
  }

  /** Every run is visited in its original order, whichever of them were hits. */
  method VisitBatch(z: Codec, ghost p: InPlay, packs: seq<seq<Byte>>, packId: nat, blocks: seq<PackBlock>, batch: seq<Run>, cache: Option<DiskCache>)
    returns (r: Result<seq<(nat, seq<Byte>)>>, cache': Option<DiskCache>)
    requires RunsOk(blocks, batch) && OnePack(batch, packId) && packId < |packs| && HasBlocks(p, blocks, packs) && HasCached(p, cache)
    ensures r.Ok? ==> Visits(z, p, blocks, Ids(batch), r.value)
    ensures forall decoded :: Sound(z, p, decoded, blocks, packs) ==> r.Ok?
    ensures OnlyVerified(z, p, blocks, cache, cache')
  {
    hide RunOk, Resolves, Sound, OnlyVerified, Visits, Ids;
    var hits := ReadHits(z, p, packs[packId], blocks, cache, batch);
    var resolved;
    resolved, cache' := FetchMisses(z, p, packs, packId, blocks, batch, hits, cache);
    if resolved.Err? {
      return Err, cache';
    }
    var visited: seq<(nat, seq<Byte>)> := [];
    NothingVisited(z, p, blocks);
    assert batch[..0] == [];
    for k := 0 to |batch|
      invariant Visits(z, p, blocks, Ids(batch[..k]), visited)
    {
      var more := VisitRun(z, p, packs, blocks, batch[k].ids, resolved.value[k].value);
      if more.Err? {
        return Err, cache';
      }
      TakeNext(batch, k);
      IdsNext(batch[..k], batch[k]);
      VisitsJoin(z, p, blocks, Ids(batch[..k]), batch[k].ids, visited, more.value);
      visited := visited + more.value;
    }
    WholeTake(batch);
    return Ok(visited), cache';
  }

  lemma NothingVisited(z: Codec, p: InPlay, blocks: seq<PackBlock>)
    ensures Visits(z, p, blocks, Ids([]), [])
  {
  }

  lemma VisitsJoin(z: Codec, p: InPlay, blocks: seq<PackBlock>, a: seq<nat>, b: seq<nat>, x: seq<(nat, seq<Byte>)>, y: seq<(nat, seq<Byte>)>)
    requires Visits(z, p, blocks, a, x) && Visits(z, p, blocks, b, y)
    ensures Visits(z, p, blocks, a + b, x + y)
  {
    hide Authentic;
    forall k | 0 <= k < |a + b| ensures (a + b)[k] < |blocks| && (x + y)[k].0 == (a + b)[k] && Authentic(z, p, blocks[(a + b)[k]], (x + y)[k].1) {
      if k >= |a| {
        assert (a + b)[k] == b[k - |a|] && (x + y)[k] == y[k - |a|];
      }
    }
  }

  // ---------------------------------------------------------------------------------------------
  // All runs

  /** `chunk_by` pack: the end of the group of runs that share the first one's pack. */
  method PackGroup(runs: seq<Run>, start: nat) returns (end: nat)
    requires start < |runs|
    ensures start < end <= |runs| && forall k :: start <= k < end ==> runs[k].pack == runs[start].pack
    ensures end < |runs| ==> runs[end].pack != runs[start].pack
  {
    end := start + 1;
    while end < |runs| && runs[end].pack == runs[start].pack
      invariant start < end <= |runs| && forall k :: start <= k < end ==> runs[k].pack == runs[start].pack
    {
      end := end + 1;
    }
  }

  function Total(runs: seq<Run>, start: nat, end: nat): nat
    requires start <= end <= |runs|
  {
    if start == end then 0 else Total(runs, start, end - 1) + runs[end - 1].len
  }

  /** `run_batches`: at least one run, then as many as stay within the byte limit. */
  method NextBatch(runs: seq<Run>, start: nat, limit: nat, maxBytes: nat) returns (end: nat)
    requires start < limit <= |runs|
    ensures start < end <= limit
    ensures Total(runs, start, end) <= maxBytes || Total(runs, start, end) == runs[start].len
    ensures end < limit ==> Total(runs, start, end + 1) > maxBytes
  {
    end := start;
    var bytes := 0;
    while end < limit
      invariant start <= end <= limit && bytes == Total(runs, start, end)
      invariant end > start ==> bytes <= maxBytes || bytes == runs[start].len
    {
      var next := runs[end].len;
      var room := if bytes <= maxBytes then maxBytes - bytes else 0;
      if end > start && next > room {
        break;
      }
      bytes := bytes + next;
      end := end + 1;
    }
  }

  /**
   `visit_blocks`: group by pack, batch, serve from disk or fetch, and visit. Whatever the store and
   the cache hold, a success has visited exactly the requested blocks in order, each from bytes with
   the recorded digest; sound packs always succeed; only verified bytes are written to the cache.
   */
  method VisitBlocks(z: Codec, ghost p: InPlay, packs: seq<seq<Byte>>, blocks: seq<PackBlock>, runs: seq<Run>, batchBytes: nat, cache: Option<DiskCache>)
    returns (r: Result<seq<(nat, seq<Byte>)>>, cache': Option<DiskCache>)
    requires RunsOk(blocks, runs) && HasBlocks(p, blocks, packs) && HasCached(p, cache)
    ensures r.Ok? ==> Visits(z, p, blocks, Ids(runs), r.value)
    ensures forall decoded :: Sound(z, p, decoded, blocks, packs) ==> r.Ok?
    ensures OnlyVerified(z, p, blocks, cache, cache')
  {
    hide RunOk, Sound, OnlyVerified, Visits, Ids;
    var visited: seq<(nat, seq<Byte>)>, start := [], 0;
    cache' := cache;
    CacheStays(z, p, blocks, cache);
    NothingVisited(z, p, blocks);
    assert runs[..0] == [];
    while start < |runs|
      invariant start <= |runs| && Visits(z, p, blocks, Ids(runs[..start]), visited) && OnlyVerified(z, p, blocks, cache, cache')
      decreases |runs| - start
    {
      var end := PackGroup(runs, start);
      var packId := runs[start].pack;
      if packId >= |packs| {
        forall decoded | Sound(z, p, decoded, blocks, packs) ensures false {
          RunInPack(z, p, decoded, blocks, packs, runs[start]);
        }
        return Err, cache';
      }
      while start < end
        invariant start <= end <= |runs| && Visits(z, p, blocks, Ids(runs[..start]), visited) && OnlyVerified(z, p, blocks, cache, cache')
        invariant forall k :: start <= k < end ==> runs[k].pack == packId
      {
        var next := NextBatch(runs, start, end, batchBytes);
        ghost var was := cache';
        var more;
        CachedStays(z, p, blocks, cache, cache');
        more, cache' := VisitBatch(z, p, packs, packId, blocks, runs[start..next], cache');
        VerifiedChain(z, p, blocks, cache, was, cache');
        if more.Err? {
          return Err, cache';
        }
        IdsSplit(runs, start, next);
        VisitsJoin(z, p, blocks, Ids(runs[..start]), Ids(runs[start..next]), visited, more.value);
        visited := visited + more.value;
        start := next;
      }
    }
    WholeTake(runs);
    return Ok(visited), cache';
  }

  lemma {:induction false} IdsSplit(runs: seq<Run>, j: nat, k: nat)
    requires j <= k <= |runs|
    ensures Ids(runs[..k]) == Ids(runs[..j]) + Ids(runs[j..k])
    decreases k
  {
    hide Ids;
    if j < k {
      IdsSplit(runs, j, k - 1);
      TakeNext(runs, k - 1);
      MiddleNext(runs, j, k - 1);
      IdsNext(runs[..k - 1], runs[k - 1]);
      IdsNext(runs[j..k - 1], runs[k - 1]);
      Associative(Ids(runs[..j]), Ids(runs[j..k - 1]), runs[k - 1].ids);
    } else {
      NoRuns();
      assert runs[j..k] == [];
    }
  }

  lemma MiddleNext<T>(x: seq<T>, j: nat, k: nat)
    requires j <= k < |x|
    ensures x[j..k + 1] == x[j..k] + [x[k]]
  {
  }

  // ---------------------------------------------------------------------------------------------
  // One large document

  function RangeIds(lo: nat, hi: nat): (r: seq<nat>)
    requires lo <= hi
    ensures |r| == hi - lo && forall k :: 0 <= k < |r| ==> r[k] == lo + k
  {
    seq(hi - lo, k requires 0 <= k < hi - lo => lo + k)
  }

  /** The visited blocks are the decoded blocks of the span, in order. */
  ghost predicate SpanVisited(decoded: seq<seq<Byte>>, span: (nat, nat), visited: seq<(nat, seq<Byte>)>) {
    && span.0 <= span.1 <= |decoded| && |visited| == span.1 - span.0
    && forall k :: 0 <= k < |visited| ==> visited[k].1 == decoded[span.0 + k]
  }

  ghost predicate Consistent(decoded: seq<seq<Byte>>, lens: seq<nat>, slice: Slice, len: nat, span: (nat, nat), visited: seq<(nat, seq<Byte>)>) {
    && Holds(decoded, lens, slice, len) && NoEmptyBlock(lens) && SpanVisited(decoded, span, visited)
    && span.0 <= span.1 <= |lens| && Cursor(lens, slice, len, span, span.0, 0, slice.blockOffset)
  }

  /** The sequential offset bookkeeping of `fetch_large`. */
  method Spool(visited: seq<(nat, seq<Byte>)>, slice: Slice, len: nat,
               ghost known: bool, ghost decoded: seq<seq<Byte>>, ghost lens: seq<nat>, ghost span: (nat, nat))
    returns (r: Result<seq<Byte>>)
    requires known ==> Consistent(decoded, lens, slice, len, span, visited)
    ensures r.Ok? ==> |r.value| == len
    ensures known ==> HoldsDocument(decoded, lens, slice, len, r)
  {
    var output: seq<Byte>, remaining: nat, blockOffset: nat := [], len, slice.blockOffset;
    hide *;
    SpoolStarts(known, decoded, lens, slice, len, span, visited);
    for k := 0 to |visited|
      invariant |output| + remaining == len
      invariant known ==> Spooled(decoded, lens, slice, len, span, span.0 + k, output, blockOffset)
    {
      var block := visited[k].1;
      if known {
        SpoolStep(decoded, lens, slice, len, span, visited, k, output, blockOffset);
      }
      if |block| < blockOffset {
        return Err;
      }
      var available := |block| - blockOffset;
      var take := if remaining < available then remaining else available;
      output := output + block[blockOffset..blockOffset + take];
      remaining := remaining - take;
      blockOffset := 0;
    }
    if known {
      SpoolEnds(decoded, lens, slice, len, span, visited, output, blockOffset);
    }
    return if remaining == 0 then Ok(output) else Err;
  }

  ghost predicate HoldsDocument(decoded: seq<seq<Byte>>, lens: seq<nat>, slice: Slice, len: nat, r: Result<seq<Byte>>) {
    Holds(decoded, lens, slice, len) && r == Ok(DocumentBytes(decoded, lens, slice, len))
  }

  /** The output is the document so far, and the cursor stands where the next block continues it. */
  ghost predicate Spooled(decoded: seq<seq<Byte>>, lens: seq<nat>, slice: Slice, len: nat, span: (nat, nat), blockId: nat, output: seq<Byte>, offset: nat) {
    && Holds(decoded, lens, slice, len) && |output| <= len
    && Cursor(lens, slice, len, span, blockId, |output|, offset)
    && output == DocumentBytes(decoded, lens, slice, len)[..|output|]
  }

  lemma SpoolStarts(known: bool, decoded: seq<seq<Byte>>, lens: seq<nat>, slice: Slice, len: nat, span: (nat, nat), visited: seq<(nat, seq<Byte>)>)
    requires known ==> Consistent(decoded, lens, slice, len, span, visited)
    ensures known ==> Spooled(decoded, lens, slice, len, span, span.0, [], slice.blockOffset)
  {
  }

  lemma SpoolStep(decoded: seq<seq<Byte>>, lens: seq<nat>, slice: Slice, len: nat, span: (nat, nat), visited: seq<(nat, seq<Byte>)>,
                  k: nat, output: seq<Byte>, offset: nat)
    requires Consistent(decoded, lens, slice, len, span, visited) && k < |visited|
    requires Spooled(decoded, lens, slice, len, span, span.0 + k, output, offset)
    ensures offset <= |visited[k].1| && |output| <= len
    ensures var available := |visited[k].1| - offset;
      var take := if len - |output| < available then len - |output| else available;
      Spooled(decoded, lens, slice, len, span, span.0 + k + 1, output + visited[k].1[offset..offset + take], 0)
  {
    hide Stream, Start, Tiles, NoEmptyBlock;
    var id, doc := span.0 + k, DocumentBytes(decoded, lens, slice, len);
    CursorStep(lens, slice, len, span, id, |output|, offset);
    BlockSize(decoded, lens, slice, len, span, visited, k);
    var available := |visited[k].1| - offset;
    var take := if len - |output| < available then len - |output| else available;
    PieceIsDocument(decoded, lens, slice, len, DocumentBlock(id, |output|, offset, take), 0, take);
    HoldsLength(decoded, lens, slice, len);
    hide DocumentBytes, Cursor, Consistent, Holds;
    SlicesMeet(doc, 0, |output|, |output| + take);
    assert doc[0..|output|] == doc[..|output|] && doc[0..|output| + take] == doc[..|output| + take];
  }

  lemma BlockSize(decoded: seq<seq<Byte>>, lens: seq<nat>, slice: Slice, len: nat, span: (nat, nat), visited: seq<(nat, seq<Byte>)>, k: nat)
    requires Consistent(decoded, lens, slice, len, span, visited) && k < |visited|
    ensures span.0 + k < |decoded| == |lens| && visited[k].1 == decoded[span.0 + k] && |visited[k].1| == lens[span.0 + k]
  {
  }

  lemma SpoolEnds(decoded: seq<seq<Byte>>, lens: seq<nat>, slice: Slice, len: nat, span: (nat, nat), visited: seq<(nat, seq<Byte>)>,
                  output: seq<Byte>, offset: nat)
    requires Consistent(decoded, lens, slice, len, span, visited)
    requires Spooled(decoded, lens, slice, len, span, span.0 + |visited|, output, offset)
    ensures |output| == len && HoldsDocument(decoded, lens, slice, len, Ok(output))
  {
    CursorEnds(lens, slice, len, span, span.0 + |visited|, |output|, offset);
    HoldsLength(decoded, lens, slice, len);
    hide DocumentBytes, Cursor;
    WholeTake(DocumentBytes(decoded, lens, slice, len));
  }

  /**
   `fetch_large`: with sound packs, every placed document comes back byte for byte, whatever the cache
   holds - entries that are stale, truncated or of another block included, as long as none carries a
   block's digest without being that block.
   */
  method FetchLarge(z: Codec, packs: seq<seq<Byte>>, blocks: seq<PackBlock>, slice: Slice, len: nat, rangeBytes: nat,
                    cache: Option<DiskCache>, ghost decoded: seq<seq<Byte>>)
    returns (r: Result<seq<Byte>>, cache': Option<DiskCache>)
    ensures r.Ok? ==> |r.value| == len
    ensures Sound(z, Playing(blocks, packs, cache), decoded, blocks, packs) && Placed(Sizes(decoded), slice, len) && NoEmptyBlock(Sizes(decoded)) ==>
              HoldsDocument(decoded, Sizes(decoded), slice, len, r)
    ensures OnlyVerified(z, Playing(blocks, packs, cache), blocks, cache, cache')
  {
    hide *;
    ghost var p := Playing(blocks, packs, cache);
    PlayingHas(blocks, packs, cache);
    ghost var known := Sound(z, p, decoded, blocks, packs) && Placed(Sizes(decoded), slice, len) && NoEmptyBlock(Sizes(decoded));
    CacheStays(z, p, blocks, cache);
    var lens := PackDocuments.TableLens(blocks);
    LensAre(z, p, decoded, blocks, packs);
    var span := BlockSpan(lens, slice, len);
    if span.Err? {
      return Err, cache;
    }
    SpanInTable(blocks, slice, len, span.value);
    var ids := RangeIds(span.value.0, span.value.1);
    var runs := BlockRuns(ids, blocks, rangeBytes);
    if runs.Err? {
      assert false;
      return Err, cache;
    }
    var visited;
    visited, cache' := VisitBlocks(z, p, packs, blocks, runs.value, rangeBytes, cache);
    if visited.Err? {
      return Err, cache';
    }
    if known {
      FetchedConsistent(z, p, decoded, blocks, packs, slice, len, span.value, visited.value);
    }
    r := Spool(visited.value, slice, len, known, decoded, lens, span.value);
  }

  lemma LensAre(z: Codec, p: InPlay, decoded: seq<seq<Byte>>, blocks: seq<PackBlock>, packs: seq<seq<Byte>>)
    ensures |PackDocuments.TableLens(blocks)| == |blocks|
    ensures Sound(z, p, decoded, blocks, packs) ==> PackDocuments.TableLens(blocks) == Sizes(decoded)
  {
    if Sound(z, p, decoded, blocks, packs) {
      PackDocuments.TableSizes(z, decoded, blocks, packs);
    }
  }

  lemma SpanInTable(blocks: seq<PackBlock>, slice: Slice, len: nat, span: (nat, nat))
    requires len == 0 ==> span == (0, 0)
    requires len > 0 ==> span.0 == slice.firstBlock < span.1 <= |PackDocuments.TableLens(blocks)|
    ensures span.0 <= span.1 <= |blocks|
  {
  }

  lemma FetchedConsistent(z: Codec, p: InPlay, decoded: seq<seq<Byte>>, blocks: seq<PackBlock>, packs: seq<seq<Byte>>, slice: Slice, len: nat,
                          span: (nat, nat), visited: seq<(nat, seq<Byte>)>)
    requires Sound(z, p, decoded, blocks, packs) && Placed(Sizes(decoded), slice, len) && NoEmptyBlock(Sizes(decoded))
    requires span.0 <= span.1 <= |blocks| && Visits(z, p, blocks, RangeIds(span.0, span.1), visited)
    requires len == 0 ==> span == (0, 0)
    requires len > 0 ==> span.0 == slice.firstBlock < span.1 <= |Sizes(decoded)|
    requires len > 0 ==> Start(Sizes(decoded), span.1 - 1) < Position(Sizes(decoded), slice) + len <= Start(Sizes(decoded), span.1)
    ensures Consistent(decoded, Sizes(decoded), slice, len, span, visited)
  {
    hide *;
    var lens := Sizes(decoded);
    SoundSizes(z, p, decoded, blocks, packs);
    VisitedAreStored(z, p, decoded, blocks, packs, RangeIds(span.0, span.1), visited);
    VisitedInSpan(z, p, blocks, span, visited);
    CursorStarts(lens, slice, len, span);
    PlacedHolds(decoded, slice, len);
    SpanIsStored(decoded, span, visited);
    IsConsistent(decoded, lens, slice, len, span, visited);
  }

  lemma SpanIsStored(decoded: seq<seq<Byte>>, span: (nat, nat), visited: seq<(nat, seq<Byte>)>)
    requires span.0 <= span.1 <= |decoded| && |visited| == span.1 - span.0
    requires forall k :: 0 <= k < |visited| ==> visited[k].0 == span.0 + k
    requires forall k :: 0 <= k < |visited| ==> visited[k].0 < |decoded| && visited[k].1 == decoded[visited[k].0]
    ensures SpanVisited(decoded, span, visited)
  {
  }

  lemma IsConsistent(decoded: seq<seq<Byte>>, lens: seq<nat>, slice: Slice, len: nat, span: (nat, nat), visited: seq<(nat, seq<Byte>)>)
    requires Holds(decoded, lens, slice, len) && NoEmptyBlock(lens) && SpanVisited(decoded, span, visited)
    requires span.0 <= span.1 <= |lens| && Cursor(lens, slice, len, span, span.0, 0, slice.blockOffset)
    ensures Consistent(decoded, lens, slice, len, span, visited)
  {
  }

  /** A placed document lies in the stream. */
  lemma PlacedHolds(decoded: seq<seq<Byte>>, slice: Slice, len: nat)
    requires Placed(Sizes(decoded), slice, len)
    ensures Holds(decoded, Sizes(decoded), slice, len)
  {
    hide Sizes;
    assert Lengths(decoded, Sizes(decoded));
    ConcatLength(decoded, Sizes(decoded), |Sizes(decoded)|);
  }

  lemma SoundSizes(z: Codec, p: InPlay, decoded: seq<seq<Byte>>, blocks: seq<PackBlock>, packs: seq<seq<Byte>>)
    requires Sound(z, p, decoded, blocks, packs)
    ensures |blocks| == |decoded| == |Sizes(decoded)|
  {
  }

  lemma VisitedInSpan(z: Codec, p: InPlay, blocks: seq<PackBlock>, span: (nat, nat), visited: seq<(nat, seq<Byte>)>)
    requires span.0 <= span.1 && Visits(z, p, blocks, RangeIds(span.0, span.1), visited)
    ensures |visited| == span.1 - span.0 && forall k :: 0 <= k < |visited| ==> visited[k].0 == span.0 + k
  {
  }

  /**
   Packed, then fetched whole through any disk cache: the original document, whatever earlier fetches,
   other segments or a damaged disk left in the cache. The built packs are a result so that the one
   assumption can be about digests of the bytes in play, not of all byte strings.
   */
  method PackAndFetch(z: Codec, blockBytes: nat, packBytes: nat, docs: seq<seq<Byte>>, d: nat, rangeBytes: nat, cache: Option<DiskCache>)
    returns (r: Result<seq<Byte>>, built: PackDocuments.Built)
    requires CodecOk(z) && blockBytes > 0 && d < |docs|
    ensures NoneForged(z, Playing(built.blocks, built.packs, cache), built.blocks, built.packs) ==> r == Ok(docs[d])
  {
    hide *;
    ghost var decoded;
    built, decoded := PackDocuments.PackAll(z, blockBytes, packBytes, docs);
    PackDocuments.SizedIsNotEmpty(decoded, blockBytes);
    PackDocuments.RecordedAt(decoded, blockBytes, docs, built.entries, d);
    PackDocuments.RecordedIsPlaced(decoded, blockBytes, docs, built.entries, d);
    var entry := built.entries[d];
    ghost var after;
    r, after := FetchLarge(z, built.packs, built.blocks, entry.slice, entry.size, rangeBytes, cache, decoded);
    ghost var p := Playing(built.blocks, built.packs, cache);
    if NoneForged(z, p, built.blocks, built.packs) {
      IsSound(z, p, decoded, built.blocks, built.packs);
      HeldIsOk(decoded, Sizes(decoded), entry.slice, entry.size, r);
    }
  }

  lemma IsSound(z: Codec, p: InPlay, decoded: seq<seq<Byte>>, blocks: seq<PackBlock>, packs: seq<seq<Byte>>)
    requires Stored(z, decoded, blocks, packs) && NoneForged(z, p, blocks, packs)
    ensures Sound(z, p, decoded, blocks, packs)
  {
  }

  lemma HeldIsOk(decoded: seq<seq<Byte>>, lens: seq<nat>, slice: Slice, len: nat, r: Result<seq<Byte>>)
    requires HoldsDocument(decoded, lens, slice, len, r)
    ensures slice.firstBlock <= |lens| && Position(lens, slice) + len <= |Stream(decoded)|
    ensures r == Ok(DocumentBytes(decoded, lens, slice, len))
  {
  }
}
