/**
 Handing candidate documents to the searcher in bounded batches (`read_candidate_batches` in
 crates/index/src/segment.rs).
 */
module CandidateBatches {
  import opened Wrappers
  import opened Slices
  import opened PackRead
  import opened PackDocuments
  import opened PS = PrefixScan

  datatype Limits = Limits(documents: nat, decodedBytes: nat)

  const U64_MAX: nat := 0xFFFF_FFFF_FFFF_FFFF

  predicate Bounded(limits: Limits) { limits.decodedBytes != U64_MAX }

  // ---------------------------------------------------------------------------------------------
  // Physical bytes: every shared block counts once

  function SumIn(lens: seq<nat>, blocks: set<nat>, k: nat): nat
    requires k <= |lens|
  {
    if k == 0 then 0 else SumIn(lens, blocks, k - 1) + if k - 1 in blocks then lens[k - 1] else 0
  }

  /** Decoded bytes of a set of blocks. */
  function Physical(lens: seq<nat>, blocks: set<nat>): nat { SumIn(lens, blocks, |lens|) }

  lemma {:induction false} SumAddsOne(lens: seq<nat>, blocks: set<nat>, b: nat, k: nat)
    requires k <= |lens|
    ensures SumIn(lens, blocks + {b}, k) == SumIn(lens, blocks, k) + if b < k && b !in blocks then lens[b] else 0
  {
    if k > 0 {
      SumAddsOne(lens, blocks, b, k - 1);
    }
  }

  function Between(lo: nat, hi: nat): (r: set<nat>)
    ensures forall b: nat :: b in r <==> lo <= b < hi
  {
    if lo >= hi then {} else Between(lo, hi - 1) + {hi - 1}
  }

  lemma {:induction false} SumNothing(lens: seq<nat>, k: nat)
    requires k <= |lens|
    ensures SumIn(lens, {}, k) == 0
  {
    if k > 0 {
      SumNothing(lens, k - 1);
    }
  }

  /** The bytes a span adds to blocks already counted. */
  method AddedBytes(lens: seq<nat>, lo: nat, hi: nat, skip: set<nat>) returns (total: nat)
    requires lo <= hi <= |lens|
    ensures Physical(lens, skip + Between(lo, hi)) == Physical(lens, skip) + total
  {
    hide SumIn;
    total := 0;
    assert skip + Between(lo, lo) == skip;
    for b := lo to hi
      invariant Physical(lens, skip + Between(lo, b)) == Physical(lens, skip) + total
    {
      SumAddsOne(lens, skip + Between(lo, b), b, |lens|);
      assert skip + Between(lo, b) + {b} == skip + Between(lo, b + 1);
      if b !in skip {
        total := total + lens[b];
      }
    }
  }

  /** The blocks that share a byte with the document. */
  ghost predicate Touches(lens: seq<nat>, e: Entry, b: nat) {
    && e.size > 0 && b < |lens| && e.slice.firstBlock <= |lens|
    && Start(lens, b) < Position(lens, e.slice) + e.size && Position(lens, e.slice) < Start(lens, b + 1)
  }

  ghost function TouchedBlocks(lens: seq<nat>, e: Entry): set<nat> {
    set b: nat | b < |lens| && Touches(lens, e, b)
  }

  /** A block span is exactly the blocks the document touches. */
  lemma SpanIsTouched(lens: seq<nat>, e: Entry, span: (nat, nat))
    requires NoEmptyBlock(lens) && Placed(lens, e.slice, e.size)
    requires e.size == 0 ==> span == (0, 0)
    requires e.size > 0 ==> e.slice.firstBlock == span.0 < span.1 <= |lens|
    requires e.size > 0 ==> Start(lens, span.1 - 1) < Position(lens, e.slice) + e.size <= Start(lens, span.1)
    ensures TouchedBlocks(lens, e) == Between(span.0, span.1)
  {
    forall b: nat ensures b in TouchedBlocks(lens, e) <==> b in Between(span.0, span.1) {
      if e.size > 0 && b < |lens| {
        if b < span.0 {
          StartGrows(lens, b + 1, span.0);
        } else if b < span.1 {
          StartGrows(lens, b, span.1 - 1);
          StartGrows(lens, span.0 + 1, b + 1);
        } else {
          StartGrows(lens, span.1, b);
        }
      }
    }
  }

  // ---------------------------------------------------------------------------------------------
  // Batches

  /** What one segment's tables say, and the reader's limits. */
  datatype Tables = Tables(entries: seq<Entry>, lens: seq<nat>, limits: Limits, large: nat)

  ghost function BlocksOf(t: Tables, id: nat): set<nat>
    requires id < |t.entries|
  {
    if Bounded(t.limits) then TouchedBlocks(t.lens, t.entries[id]) else {}
  }

  ghost predicate InTables(t: Tables, ids: seq<nat>) {
    forall k :: 0 <= k < |ids| ==> ids[k] < |t.entries|
  }

  ghost function Union(t: Tables, batch: seq<nat>): set<nat>
    requires InTables(t, batch)
  {
    if batch == [] then {} else Union(t, batch[..|batch| - 1]) + BlocksOf(t, batch[|batch| - 1])
  }

  /** A document that gets a batch of its own: large, or above the byte limit by itself. */
  ghost predicate Isolated(t: Tables, id: nat)
    requires id < |t.entries|
  {
    Bounded(t.limits) && (t.entries[id].size >= t.large || Physical(t.lens, BlocksOf(t, id)) > t.limits.decodedBytes)
  }

  /** The distinct blocks of the batch stay within the limit, and nothing in it wants to be alone. */
  ghost predicate Shared(t: Tables, batch: seq<nat>)
    requires InTables(t, batch)
  {
    && Physical(t.lens, Union(t, batch)) <= t.limits.decodedBytes
    && forall k :: 0 <= k < |batch| ==> !Isolated(t, batch[k])
  }

  ghost predicate BatchOk(t: Tables, batch: seq<nat>) {
    && InTables(t, batch) && 0 < |batch| <= t.limits.documents
    && (|batch| == 1 || Shared(t, batch))
  }

  function Flat(batches: seq<seq<nat>>): seq<nat> {
    if batches == [] then [] else Flat(batches[..|batches| - 1]) + batches[|batches| - 1]
  }

  lemma FlatNext(batches: seq<seq<nat>>, batch: seq<nat>)
    ensures Flat(batches + [batch]) == Flat(batches) + batch
  {
    assert (batches + [batch])[..|batches|] == batches;
  }

  function Live(ids: seq<nat>, dead: set<nat>): (r: seq<nat>)
    ensures forall x :: x in r <==> x in ids && x !in dead
  {
    if ids == [] then []
    else
      assert ids == [ids[0]] + ids[1..];
      (if ids[0] in dead then [] else [ids[0]]) + Live(ids[1..], dead)
  }

  /** The visitor asked for more after every batch but possibly the last. */
  ghost predicate Wanted(go: seq<seq<nat>> -> bool, batches: seq<seq<nat>>) {
    forall k :: 0 < k < |batches| ==> go(batches[..k])
  }

  ghost predicate Delivered(t: Tables, go: seq<seq<nat>> -> bool, batches: seq<seq<nat>>) {
    Wanted(go, batches) && forall k :: 0 <= k < |batches| ==> BatchOk(t, batches[k])
  }

  lemma DeliverNext(t: Tables, go: seq<seq<nat>> -> bool, batches: seq<seq<nat>>, batch: seq<nat>)
    requires Delivered(t, go, batches) && (batches != [] ==> go(batches)) && BatchOk(t, batch)
    ensures Delivered(t, go, batches + [batch])
  {
    hide BatchOk;
    var all := batches + [batch];
    assert all[..|batches|] == batches;
    forall k | 0 < k < |all| ensures go(all[..k]) {
      if k < |batches| {
        assert all[..k] == batches[..k];
      }
    }
  }

  /** The batch under construction and what was delivered so far. */
  ghost predicate Collecting(t: Tables, go: seq<seq<nat>> -> bool, done: seq<nat>, batches: seq<seq<nat>>, batch: seq<nat>, bytes: nat, blocks: set<nat>) {
    && Delivered(t, go, batches) && (batches != [] ==> go(batches))
    && Flat(batches) + batch == done
    && InTables(t, batch) && |batch| <= t.limits.documents && Shared(t, batch)
    && blocks == Union(t, batch) && bytes == Physical(t.lens, blocks)
  }

  lemma CollectNothing(t: Tables, go: seq<seq<nat>> -> bool)
    ensures Collecting(t, go, [], [], [], 0, {})
  {
    SumNothing(t.lens, |t.lens|);
  }

  lemma FlushBatch(t: Tables, go: seq<seq<nat>> -> bool, done: seq<nat>, batches: seq<seq<nat>>, batch: seq<nat>, bytes: nat, blocks: set<nat>)
    requires Collecting(t, go, done, batches, batch, bytes, blocks) && batch != []
    ensures Delivered(t, go, batches + [batch]) && Flat(batches + [batch]) == done
    ensures go(batches + [batch]) ==> Collecting(t, go, done, batches + [batch], [], 0, {})
  {
    hide Delivered, Shared, Flat, Union, Physical, Isolated;
    DeliverNext(t, go, batches, batch);
    FlatNext(batches, batch);
    EmptyShared(t);
  }

  lemma EmptyShared(t: Tables)
    ensures Shared(t, []) && Union(t, []) == {} && Physical(t.lens, {}) == 0
  {
    SumNothing(t.lens, |t.lens|);
  }

  lemma UnionNext(t: Tables, batch: seq<nat>, id: nat)
    requires InTables(t, batch) && id < |t.entries|
    ensures InTables(t, batch + [id]) && Union(t, batch + [id]) == Union(t, batch) + BlocksOf(t, id)
  {
    assert (batch + [id])[..|batch|] == batch;
  }

  /** A document joins a batch that has room for it. */
  lemma JoinBatch(t: Tables, go: seq<seq<nat>> -> bool, done: seq<nat>, batches: seq<seq<nat>>, batch: seq<nat>, bytes: nat, blocks: set<nat>,
                  id: nat, added: nat)
    requires Collecting(t, go, done, batches, batch, bytes, blocks) && id < |t.entries| && !Isolated(t, id)
    requires |batch| < t.limits.documents && added <= t.limits.decodedBytes - bytes
    requires Physical(t.lens, blocks + BlocksOf(t, id)) == Physical(t.lens, blocks) + added
    ensures Collecting(t, go, done + [id], batches, batch + [id], bytes + added, blocks + BlocksOf(t, id))
  {
    hide Delivered, Flat, Union, Physical, Isolated;
    UnionNext(t, batch, id);
    Associative(Flat(batches), batch, [id]);
    forall k | 0 <= k < |batch + [id]| ensures !Isolated(t, (batch + [id])[k]) {
    }
  }

  /** A document alone in its batch. */
  lemma AloneBatch(t: Tables, go: seq<seq<nat>> -> bool, done: seq<nat>, batches: seq<seq<nat>>, id: nat)
    requires Collecting(t, go, done, batches, [], 0, {}) && id < |t.entries| && t.limits.documents > 0
    ensures Delivered(t, go, batches + [[id]]) && Flat(batches + [[id]]) == done + [id]
    ensures go(batches + [[id]]) ==> Collecting(t, go, done + [id], batches + [[id]], [], 0, {})
  {
    hide Delivered, Shared, Flat, Union, Physical, Isolated;
    DeliverNext(t, go, batches, [id]);
    FlatNext(batches, [id]);
    EmptyShared(t);
  }

  /** The first document of an empty batch fits when it need not be alone. */
  lemma FirstFits(t: Tables, id: nat, added: nat)
    requires id < |t.entries| && !Isolated(t, id)
    requires Physical(t.lens, {} + BlocksOf(t, id)) == Physical(t.lens, {}) + added
    ensures added <= t.limits.decodedBytes
  {
    SumNothing(t.lens, |t.lens|);
    assert {} + BlocksOf(t, id) == BlocksOf(t, id);
  }

  // ---------------------------------------------------------------------------------------------
  // Batches are as full as they can be

  /** A batch of one document that has to be alone. */
  ghost predicate Alone(t: Tables, batch: seq<nat>) {
    |batch| == 1 && batch[0] < |t.entries| && Isolated(t, batch[0])
  }

  /** The next document could not have joined the batch. */
  ghost predicate Full(t: Tables, batch: seq<nat>, next: nat) {
    && InTables(t, batch) && next < |t.entries|
    && (Alone(t, batch) || Isolated(t, next) || |batch| >= t.limits.documents
        || Physical(t.lens, Union(t, batch) + BlocksOf(t, next)) > t.limits.decodedBytes)
  }

  /** Every batch but the last ends because the document after it could not have joined. */
  ghost predicate Packed(t: Tables, batches: seq<seq<nat>>) {
    && (forall k :: 0 <= k < |batches| ==> batches[k] != [])
    && forall k :: 0 <= k < |batches| - 1 ==> Full(t, batches[k], batches[k + 1][0])
  }

  /** The batch under construction, or the document that comes next, could not have joined the last one. */
  ghost predicate Continues(t: Tables, batches: seq<seq<nat>>, next: nat) {
    Packed(t, batches) && (batches != [] ==> Full(t, batches[|batches| - 1], next))
  }

  ghost predicate Waiting(t: Tables, batches: seq<seq<nat>>, batch: seq<nat>) {
    && Packed(t, batches)
    && (if batch != [] then Continues(t, batches, batch[0]) else batches == [] || Alone(t, batches[|batches| - 1]))
  }

  lemma WaitNothing(t: Tables)
    ensures Waiting(t, [], [])
  {
  }

  lemma WaitContinues(t: Tables, batches: seq<seq<nat>>, next: nat)
    requires Waiting(t, batches, []) && next < |t.entries|
    ensures Continues(t, batches, next)
  {
    hide Isolated;
  }

  /** Closing the batch under construction. */
  lemma PackNext(t: Tables, batches: seq<seq<nat>>, batch: seq<nat>)
    requires batch != [] && Continues(t, batches, batch[0])
    ensures Packed(t, batches + [batch])
  {
    hide Full;
    var all := batches + [batch];
    forall k | 0 <= k < |all| - 1 ensures Full(t, all[k], all[k + 1][0]) {
      if k < |batches| - 1 {
        assert all[k] == batches[k] && all[k + 1] == batches[k + 1];
      }
    }
  }

  /** A batch that was closed for `next`. */
  lemma ClosedFor(t: Tables, batches: seq<seq<nat>>, batch: seq<nat>, next: nat)
    requires Waiting(t, batches, batch) && batch != [] && Full(t, batch, next)
    ensures Continues(t, batches + [batch], next)
  {
    PackNext(t, batches, batch);
    hide Full;
  }

  lemma JoinWaits(t: Tables, batches: seq<seq<nat>>, batch: seq<nat>, id: nat)
    requires Packed(t, batches) && (if batch == [] then Continues(t, batches, id) else Continues(t, batches, batch[0]))
    ensures Waiting(t, batches, batch + [id])
  {
    hide Full;
  }

  lemma AloneWaits(t: Tables, batches: seq<seq<nat>>, id: nat)
    requires Continues(t, batches, id) && id < |t.entries| && Isolated(t, id)
    ensures Waiting(t, batches + [[id]], []) && Packed(t, batches + [[id]])
  {
    PackNext(t, batches, [id]);
    hide Full, Isolated;
  }

  lemma WaitingFacts(t: Tables, batches: seq<seq<nat>>, batch: seq<nat>)
    requires Waiting(t, batches, batch)
    ensures Packed(t, batches) && (batch != [] ==> Continues(t, batches, batch[0]))
  {
  }

  lemma ContinuesPacked(t: Tables, batches: seq<seq<nat>>, next: nat)
    requires Continues(t, batches, next)
    ensures Packed(t, batches)
  {
  }

  /** The check that closes a batch is the one `Full` speaks of. */
  lemma FullIs(t: Tables, go: seq<seq<nat>> -> bool, done: seq<nat>, batches: seq<seq<nat>>, batch: seq<nat>, bytes: nat, blocks: set<nat>,
               id: nat, added: nat)
    requires Collecting(t, go, done, batches, batch, bytes, blocks) && id < |t.entries|
    requires Physical(t.lens, blocks + BlocksOf(t, id)) == Physical(t.lens, blocks) + added
    ensures Isolated(t, id) || |batch| >= t.limits.documents || added > t.limits.decodedBytes - bytes ==> Full(t, batch, id)
  {
    hide Delivered, Shared, Flat, Physical, Isolated, Union;
  }

  method DocumentSpan(t: Tables, id: nat) returns (r: Result<(nat, nat)>)
    requires id < |t.entries| && NoEmptyBlock(t.lens)
    ensures r.Ok? <==> Bounded(t.limits) ==> Placed(t.lens, t.entries[id].slice, t.entries[id].size)
    ensures r.Ok? ==> r.value.0 <= r.value.1 <= |t.lens| && Between(r.value.0, r.value.1) == BlocksOf(t, id)
  {
    if !Bounded(t.limits) {
      assert Between(0, 0) == {};
      return Ok((0, 0));
    }
    var e := t.entries[id];
    r := BlockSpan(t.lens, e.slice, e.size);
    if r.Ok? {
      SpanIsTouched(t.lens, e, r.value);
    }
  }

  lemma LiveInTables(t: Tables, ids: seq<nat>, dead: set<nat>)
    requires InTables(t, ids)
    ensures InTables(t, Live(ids, dead))
  {
    var live := Live(ids, dead);
    forall k | 0 <= k < |live| ensures live[k] < |t.entries| {
      assert live[k] in live;
    }
  }

  lemma LiveAt(t: Tables, live: seq<nat>, k: nat)
    requires InTables(t, live) && k < |live|
    ensures live[k] < |t.entries| && live[k] in live
  {
  }

  lemma TakePrefix(live: seq<nat>, k: nat)
    requires k <= |live|
    ensures live[..k] <= live
  {
  }

  lemma CollectingFacts(t: Tables, go: seq<seq<nat>> -> bool, done: seq<nat>, batches: seq<seq<nat>>, batch: seq<nat>, bytes: nat, blocks: set<nat>)
    requires Collecting(t, go, done, batches, batch, bytes, blocks)
    ensures InTables(t, batch) && |batch| <= t.limits.documents && bytes <= t.limits.decodedBytes
    ensures Delivered(t, go, batches) && Flat(batches) + batch == done && (batches != [] ==> go(batches))
    ensures batch == [] ==> bytes == 0 && blocks == {} && Flat(batches) == done
  {
    hide Delivered, Flat;
    if batch == [] {
      EmptyShared(t);
    }
  }

  lemma WholeIs(t: Tables, id: nat, span: (nat, nat), whole: nat)
    requires id < |t.entries| && Between(span.0, span.1) == BlocksOf(t, id)
    requires Physical(t.lens, {} + Between(span.0, span.1)) == Physical(t.lens, {}) + whole
    ensures whole == Physical(t.lens, BlocksOf(t, id))
  {
    EmptyShared(t);
    hide *;
    assert {} + Between(span.0, span.1) == Between(span.0, span.1);
  }

  lemma IsolatedIs(t: Tables, id: nat, whole: nat)
    requires id < |t.entries| && whole == Physical(t.lens, BlocksOf(t, id))
    ensures Isolated(t, id) <==> Bounded(t.limits) && (t.entries[id].size >= t.large || whole > t.limits.decodedBytes)
  {
  }

  /**
   The batches of one segment: every live candidate once, in order, unless the visitor stops. A batch
   keeps the document limit; its distinct blocks keep the byte limit unless it is a single document; and
   it ends only where the next document could not have joined it.
   */
  method ReadBatches(t: Tables, ids: seq<nat>, dead: set<nat>, go: seq<seq<nat>> -> bool)
    returns (r: Result<bool>, batches: seq<seq<nat>>)
    requires NoEmptyBlock(t.lens) && InTables(t, ids) && t.limits.documents > 0
    ensures Delivered(t, go, batches) && Packed(t, batches)
    ensures r == Ok(true) ==> Flat(batches) == Live(ids, dead) && (batches != [] ==> go(batches))
    ensures r == Ok(false) ==> batches != [] && !go(batches) && Flat(batches) <= Live(ids, dead)
    ensures r.Err? ==> Bounded(t.limits)
    ensures r.Err? ==> exists id :: id in Live(ids, dead) && !Placed(t.lens, t.entries[id].slice, t.entries[id].size)
  {
    hide *;
    var live := Live(ids, dead);
    LiveInTables(t, ids, dead);
    var batch: seq<nat>, bytes: nat, blocks: set<nat> := [], 0, {};
    batches := [];
    CollectNothing(t, go);
    WaitNothing(t);
    assert live[..0] == [];
    for k := 0 to |live|
      invariant Collecting(t, go, live[..k], batches, batch, bytes, blocks) && Waiting(t, batches, batch)
    {
      var id := live[k];
      TakeNext(live, k);
      CollectingFacts(t, go, live[..k], batches, batch, bytes, blocks);
      WaitingFacts(t, batches, batch);
      LiveAt(t, live, k);
      var span := DocumentSpan(t, id);
      if span.Err? {
        return Err, batches;
      }
      var whole := AddedBytes(t.lens, span.value.0, span.value.1, {});
      WholeIs(t, id, span.value, whole);
      var added := AddedBytes(t.lens, span.value.0, span.value.1, blocks);
      var isolated := Bounded(t.limits) && (t.entries[id].size >= t.large || whole > t.limits.decodedBytes);
      IsolatedIs(t, id, whole);
      FullIs(t, go, live[..k], batches, batch, bytes, blocks, id, added);
      if batch == [] {
        WaitContinues(t, batches, id);
      }
      assert bytes <= t.limits.decodedBytes;
      var exceeds := batch != [] && (|batch| >= t.limits.documents || added > t.limits.decodedBytes - bytes);
      if (isolated || exceeds) && batch != [] {
        FlushBatch(t, go, live[..k], batches, batch, bytes, blocks);
        ClosedFor(t, batches, batch, id);
        batches := batches + [batch];
        ContinuesPacked(t, batches, id);
        if !go(batches) {
          TakePrefix(live, k);
          return Ok(false), batches;
        }
        batch, bytes, blocks := [], 0, {};
      }
      if isolated {
        AloneBatch(t, go, live[..k], batches, id);
        AloneWaits(t, batches, id);
        batches := batches + [[id]];
        if !go(batches) {
          TakePrefix(live, k + 1);
          return Ok(false), batches;
        }
        batch, bytes, blocks := [], 0, {};
      } else {
        var more := AddedBytes(t.lens, span.value.0, span.value.1, blocks);
        if batch == [] {
          FirstFits(t, id, more);
        }
        JoinBatch(t, go, live[..k], batches, batch, bytes, blocks, id, more);
        JoinWaits(t, batches, batch, id);
        batch, bytes, blocks := batch + [id], bytes + more, blocks + Between(span.value.0, span.value.1);
      }
    }
    assert live[..|live|] == live;
    CollectingFacts(t, go, live, batches, batch, bytes, blocks);
    WaitingFacts(t, batches, batch);
    if batch != [] {
      FlushBatch(t, go, live, batches, batch, bytes, blocks);
      PackNext(t, batches, batch);
      batches := batches + [batch];
      if !go(batches) {
        TakePrefix(live, |live|);
        return Ok(false), batches;
      }
    }
    return Ok(true), batches;
  }

  // ---------------------------------------------------------------------------------------------
  // All segments

  /** One segment as the reader walks it: its key bounds, and the candidates its plans selected. */
  datatype Part = Part(tables: Tables, minKey: Key, maxKey: Key, ids: seq<nat>, dead: set<nat>)

  ghost predicate PartOk(p: Part) {
    && NoEmptyBlock(p.tables.lens) && InTables(p.tables, p.ids) && p.tables.limits.documents > 0
    && AtMost(p.minKey, p.maxKey)
  }

  /** No key of the segment can have the prefix. */
  ghost predicate Skipped(p: Part, prefix: Option<Key>) {
    prefix.Some? && !PS.Overlaps(p.minKey, p.maxKey, SourcePrefix(prefix.value))
  }

  /** The visitor sees the batches of the segments before, and those of this one so far. */
  type Visitor = (seq<seq<seq<nat>>>, seq<seq<nat>>) -> bool

  /** The segment is finished: skipped, or every live candidate handed over with the visitor's consent. */
  ghost predicate Finished(p: Part, prefix: Option<Key>, go: Visitor, before: seq<seq<seq<nat>>>, batches: seq<seq<nat>>) {
    if Skipped(p, prefix) then batches == []
    else
      && Delivered(p.tables, bs => go(before, bs), batches) && Packed(p.tables, batches)
      && Flat(batches) == Live(p.ids, p.dead) && (batches != [] ==> go(before, batches))
  }

  /** The visitor stopped in this segment, right after its last batch. */
  ghost predicate StoppedIn(p: Part, prefix: Option<Key>, go: Visitor, before: seq<seq<seq<nat>>>, batches: seq<seq<nat>>) {
    && !Skipped(p, prefix) && Delivered(p.tables, bs => go(before, bs), batches) && Packed(p.tables, batches)
    && batches != [] && !go(before, batches) && Flat(batches) <= Live(p.ids, p.dead)
  }

  ghost predicate AllFinished(parts: seq<Part>, prefix: Option<Key>, go: Visitor, out: seq<seq<seq<nat>>>, n: nat) {
    && n <= |parts| && n <= |out|
    && forall s :: 0 <= s < n ==> Finished(parts[s], prefix, go, out[..s], out[s])
  }

  lemma FinishNext(parts: seq<Part>, prefix: Option<Key>, go: Visitor, out: seq<seq<seq<nat>>>, batches: seq<seq<nat>>)
    requires AllFinished(parts, prefix, go, out, |out|)
    ensures AllFinished(parts, prefix, go, out + [batches], |out|)
    ensures |out| < |parts| && Finished(parts[|out|], prefix, go, out, batches) ==> AllFinished(parts, prefix, go, out + [batches], |out| + 1)
  {
    hide Finished;
    var all := out + [batches];
    forall s | 0 <= s < |out| ensures all[..s] == out[..s] && all[s] == out[s] {
    }
    assert all[..|out|] == out;
  }

  /**
   The walk over the segments: those that cannot hold the prefix are skipped, every other one is handed
   over whole, and when the visitor says stop nothing of a later segment is touched.
   */
  method ReadSegments(parts: seq<Part>, prefix: Option<Key>, go: Visitor) returns (r: Result<bool>, out: seq<seq<seq<nat>>>)
    requires forall s :: 0 <= s < |parts| ==> PartOk(parts[s])
    ensures r == Ok(true) ==> |out| == |parts| && AllFinished(parts, prefix, go, out, |parts|)
    ensures r == Ok(false) ==>
              && 0 < |out| <= |parts| && AllFinished(parts, prefix, go, out, |out| - 1)
              && StoppedIn(parts[|out| - 1], prefix, go, out[..|out| - 1], out[|out| - 1])
    ensures r.Err? ==> 0 < |out| <= |parts| && AllFinished(parts, prefix, go, out, |out| - 1)
  {
    hide Finished, StoppedIn, PS.Overlaps, NoEmptyBlock, AtMost, Delivered, Packed;
    out := [];
    for s := 0 to |parts|
      invariant |out| == s && AllFinished(parts, prefix, go, out, s)
    {
      var p := parts[s];
      assert PartOk(p);
      var overlaps := true;
      if prefix.Some? {
        overlaps := PrefixOverlaps(p.minKey, p.maxKey, SourcePrefix(prefix.value));
      }
      var whole: Result<bool>, batches: seq<seq<nat>> := Ok(true), [];
      if overlaps {
        var before := out;
        whole, batches := ReadBatches(p.tables, p.ids, p.dead, bs => go(before, bs));
      }
      FinishNext(parts, prefix, go, out, batches);
      assert (out + [batches])[..s] == out;
      if whole == Ok(true) {
        IsFinished(p, prefix, go, out, batches);
      } else if whole == Ok(false) {
        IsStopped(p, prefix, go, out, batches);
      }
      out := out + [batches];
      if whole != Ok(true) {
        return whole, out;
      }
    }
    return Ok(true), out;
  }

  lemma IsFinished(p: Part, prefix: Option<Key>, go: Visitor, before: seq<seq<seq<nat>>>, batches: seq<seq<nat>>)
    requires Skipped(p, prefix) ==> batches == []
    requires !Skipped(p, prefix) ==> Delivered(p.tables, bs => go(before, bs), batches) && Packed(p.tables, batches)
    requires !Skipped(p, prefix) ==> Flat(batches) == Live(p.ids, p.dead) && (batches != [] ==> go(before, batches))
    ensures Finished(p, prefix, go, before, batches)
  {
  }

  lemma IsStopped(p: Part, prefix: Option<Key>, go: Visitor, before: seq<seq<seq<nat>>>, batches: seq<seq<nat>>)
    requires !Skipped(p, prefix) && Delivered(p.tables, bs => go(before, bs), batches) && Packed(p.tables, batches)
    requires batches != [] && !go(before, batches) && Flat(batches) <= Live(p.ids, p.dead)
    ensures StoppedIn(p, prefix, go, before, batches)
  {
  }
}
