/** Delta-packed posting lists in blocks of 128 (crates/index/src/delta_blocks.rs). */
module DeltaBlocks {
  import opened Wrappers
  import opened Slices
  import opened Sorting
  import opened Bits
  import opened Postings

  const BLOCK_IDS: nat := 128

  /** The ID before position `k`; -1 stands for `None`. */
  function Previous(ids: seq<nat>, k: nat): int
    requires k <= |ids|
  {
    if k == 0 then -1 else ids[k - 1]
  }

  /** The distance to the previous ID, less one; the first ID itself at the start. */
  function Delta(ids: seq<nat>, k: nat): int
    requires k < |ids|
  {
    ids[k] - Previous(ids, k) - 1
  }

  lemma DeltaFits(ids: seq<nat>, docCount: nat, k: nat)
    requires IdList(ids, docCount) && k < |ids|
    ensures 0 <= Delta(ids, k) < docCount
  {
    if k > 0 {
      assert IdLess(ids[k - 1], ids[k]);
    }
  }

  function Deltas(ids: seq<nat>, from: nat, to: nat): (r: seq<int>)
    requires from <= to <= |ids|
    ensures |r| == to - from && forall i :: 0 <= i < |r| ==> r[i] == Delta(ids, from + i)
  {
    seq(to - from, i requires 0 <= i < to - from => Delta(ids, from + i))
  }

  function BlockStop(n: nat, from: nat): nat {
    if from + BLOCK_IDS < n then from + BLOCK_IDS else n
  }

  /** Bytes `[a, b)` are one block: a width from 1 to 32, then the packed deltas. */
  ghost predicate IsBlock(bytes: seq<nat>, a: nat, b: nat, ids: seq<nat>, from: nat) {
    && a < b <= |bytes| && from < |ids| && 1 <= bytes[a] <= 32
    && exists ds: seq<nat> ::
         && ds == Deltas(ids, from, BlockStop(|ids|, from)) && Below(ds, Pow2(bytes[a]))
         && IsPacked(bytes[a + 1..b], ds, bytes[a])
  }

  /** From `cursor` on, the bytes encode the IDs from `from` on, block by block, and nothing else. */
  ghost predicate EncodedFrom(bytes: seq<nat>, cursor: nat, ids: seq<nat>, from: nat)
    decreases |ids| - from
  {
    if from >= |ids| then from == |ids| && cursor == |bytes|
    else exists b: nat :: IsBlock(bytes, cursor, b, ids, from) && EncodedFrom(bytes, b, ids, BlockStop(|ids|, from))
  }

  /** `bytes` is an encoding of `ids`. */
  ghost predicate EncodedDeltas(bytes: seq<nat>, ids: seq<nat>) {
    EncodedFrom(bytes, 0, ids, 0)
  }

  /** The width byte at `a` is the least that holds the block's deltas. */
  ghost predicate IsTight(bytes: seq<nat>, a: nat, ids: seq<nat>, from: nat)
    requires a < |bytes| && from < |ids|
  {
    bytes[a] == 1 || (bytes[a] > 1 && exists k :: from <= k < BlockStop(|ids|, from) && Delta(ids, k) >= Pow2(bytes[a] - 1))
  }

  /** An encoding with the least width in every block. */
  ghost predicate TightFrom(bytes: seq<nat>, cursor: nat, ids: seq<nat>, from: nat)
    decreases |ids| - from
  {
    if from >= |ids| then from == |ids| && cursor == |bytes|
    else
      exists b: nat ::
        IsBlock(bytes, cursor, b, ids, from) && IsTight(bytes, cursor, ids, from) && TightFrom(bytes, b, ids, BlockStop(|ids|, from))
  }

  lemma {:induction false} TightIsEncoded(bytes: seq<nat>, cursor: nat, ids: seq<nat>, from: nat)
    requires TightFrom(bytes, cursor, ids, from)
    ensures EncodedFrom(bytes, cursor, ids, from)
    decreases |ids| - from
  {
    hide IsBlock, IsTight;
    if from < |ids| {
      var b: nat :| IsBlock(bytes, cursor, b, ids, from) && TightFrom(bytes, b, ids, BlockStop(|ids|, from));
      TightIsEncoded(bytes, b, ids, BlockStop(|ids|, from));
    }
  }

  /** No smaller width holds the deltas of a tight block. */
  lemma TightIsLeast(bytes: seq<nat>, a: nat, b: nat, ids: seq<nat>, from: nat, width: nat)
    requires IsBlock(bytes, a, b, ids, from) && IsTight(bytes, a, ids, from) && 1 <= width < bytes[a]
    ensures exists k :: from <= k < BlockStop(|ids|, from) && Delta(ids, k) >= Pow2(width)
  {
    var k :| from <= k < BlockStop(|ids|, from) && Delta(ids, k) >= Pow2(bytes[a] - 1);
    Pow2Grows(width, bytes[a] - 1);
  }

  lemma TightGrows(bytes: seq<nat>, more: seq<nat>, a: nat, ids: seq<nat>, from: nat)
    requires a < |bytes| && from < |ids| && IsTight(bytes, a, ids, from)
    ensures IsTight(bytes + more, a, ids, from)
  {
  }

  lemma BlockGrows(bytes: seq<nat>, more: seq<nat>, a: nat, b: nat, ids: seq<nat>, from: nat)
    requires IsBlock(bytes, a, b, ids, from)
    ensures a < b && IsBlock(bytes + more, a, b, ids, from)
  {
    assert (bytes + more)[a + 1..b] == bytes[a + 1..b];
  }

  /** `bits_for`. */
  function BitsFor(value: nat): nat {
    if BitLen(value) < 1 then 1 else BitLen(value)
  }

  method BlockDeltas(ids: seq<nat>, from: nat, to: nat, ghost docCount: nat) returns (ds: seq<nat>, width: nat)
    requires IdList(ids, docCount) && docCount <= ID_LIMIT && from < to <= |ids|
    ensures ds == Deltas(ids, from, to) && 1 <= width <= 32 && Below(ds, Pow2(width))
    ensures width == 1 || exists k :: from <= k < to && Delta(ids, k) >= Pow2(width - 1)
  {
    ds := [];
    var maxDelta: nat := 0;
    for k := from to to
      invariant |ds| == k - from && maxDelta < ID_LIMIT
      invariant forall i :: 0 <= i < |ds| ==> ds[i] == Delta(ids, from + i) && ds[i] <= maxDelta
      invariant maxDelta > 0 ==> exists i :: from <= i < k && Delta(ids, i) == maxDelta
    {
      DeltaFits(ids, docCount, k);
      var delta := Delta(ids, k);
      ds := ds + [delta];
      if delta > maxDelta {
        maxDelta := delta;
      }
    }
    width := BitsFor(maxDelta);
    BitLenBounds(maxDelta);
    Pow2Is();
    if BitLen(maxDelta) > 32 {
      Pow2Grows(32, BitLen(maxDelta) - 1);
    }
    Pow2Grows(BitLen(maxDelta), width);
  }

  lemma BlockIsAppended(bytes: seq<nat>, width: nat, packed: seq<nat>, ds: seq<nat>, ids: seq<nat>, from: nat)
    requires from < |ids| && ds == Deltas(ids, from, BlockStop(|ids|, from))
    requires 1 <= width <= 32 && Below(ds, Pow2(width)) && IsPacked(packed, ds, width)
    ensures IsBlock(bytes + [width] + packed, |bytes|, |bytes + [width] + packed|, ids, from)
  {
    var all := bytes + [width] + packed;
    assert all[|bytes|] == width;
    assert all[|bytes| + 1..|all|] == packed;
  }

  lemma BlockIsTight(bytes: seq<nat>, width: nat, packed: seq<nat>, ids: seq<nat>, from: nat)
    requires from < |ids| && 1 <= width
    requires width == 1 || exists k :: from <= k < BlockStop(|ids|, from) && Delta(ids, k) >= Pow2(width - 1)
    ensures IsTight(bytes + ([width] + packed), |bytes|, ids, from)
  {
    assert (bytes + ([width] + packed))[|bytes|] == width;
  }

  /** The bytes so far are a good beginning: whatever completes them completes the whole. */
  ghost predicate GoodPrefix(bytes: seq<nat>, ids: seq<nat>, from: nat) {
    forall more: seq<nat> :: TightFrom(bytes + more, |bytes|, ids, from) ==> TightFrom(bytes + more, 0, ids, 0)
  }

  lemma PrefixGrows(bytes: seq<nat>, block: seq<nat>, ids: seq<nat>, from: nat)
    requires GoodPrefix(bytes, ids, from) && from < |ids|
    requires IsBlock(bytes + block, |bytes|, |bytes + block|, ids, from) && IsTight(bytes + block, |bytes|, ids, from)
    ensures GoodPrefix(bytes + block, ids, BlockStop(|ids|, from))
  {
    var next := bytes + block;
    forall more: seq<nat> | TightFrom(next + more, |next|, ids, BlockStop(|ids|, from)) ensures TightFrom(next + more, 0, ids, 0) {
      BlockGrows(next, more, |bytes|, |next|, ids, from);
      TightGrows(next, more, |bytes|, ids, from);
      Associative(bytes, block, more);
      hide IsBlock, IsTight;
      assert TightFrom(next + more, |bytes|, ids, from);
    }
  }

  lemma PrefixComplete(bytes: seq<nat>, ids: seq<nat>)
    requires GoodPrefix(bytes, ids, |ids|)
    ensures TightFrom(bytes, 0, ids, 0) && EncodedDeltas(bytes, ids)
  {
    assert bytes + [] == bytes;
    assert TightFrom(bytes + [], |bytes|, ids, |ids|);
    TightIsEncoded(bytes, 0, ids, 0);
  }

  lemma NothingEncoded(ids: seq<nat>)
    ensures GoodPrefix([], ids, 0)
  {
  }

  /** `encode_delta_blocks`. */
  method EncodeDeltaBlocks(ids: seq<nat>, ghost docCount: nat) returns (bytes: seq<nat>)
    requires IdList(ids, docCount) && docCount <= ID_LIMIT
    ensures EncodedDeltas(bytes, ids) && TightFrom(bytes, 0, ids, 0) && Below(bytes, 256)
  {
    bytes := [];
    var from := 0;
    hide IdList, EncodedFrom, TightFrom, EncodedDeltas, IsTight, GoodPrefix, IsBlock, Deltas, Pow2, IsPacked;
    NothingEncoded(ids);
    while from < |ids|
      invariant from <= |ids| && GoodPrefix(bytes, ids, from) && Below(bytes, 256)
    {
      var to := BlockStop(|ids|, from);
      var ds, width := BlockDeltas(ids, from, to, docCount);
      var packed := PackIds(ds, width);
      PackedBytes(packed, ds, width);
      BlockIsAppended(bytes, width, packed, ds, ids, from);
      Associative(bytes, [width], packed);
      BlockIsTight(bytes, width, packed, ids, from);
      PrefixGrows(bytes, [width] + packed, ids, from);
      bytes := bytes + [width] + packed;
      from := to;
    }
    PrefixComplete(bytes, ids);
  }

  lemma PackedBytes(packed: seq<nat>, ds: seq<nat>, width: nat)
    requires IsPacked(packed, ds, width)
    ensures Below(packed, 256) && |packed| == PackedLen(|ds|, width)
  {
  }

  // ---------------------------------------------------------------------------------------------
  // Decoding

  /** The ID reached after `n` deltas. */
  function SumAt(previous: int, ds: seq<nat>, n: nat): int
    requires n <= |ds|
  {
    if n == 0 then previous else SumAt(previous, ds, n - 1) + ds[n - 1] + 1
  }

  ghost predicate AllBelow(previous: int, ds: seq<nat>, docCount: nat) {
    forall n :: 0 < n <= |ds| ==> SumAt(previous, ds, n) < docCount
  }

  /** `next` continues `out` with the IDs the deltas lead to. */
  ghost predicate Added(out: seq<nat>, ds: seq<nat>, next: seq<nat>) {
    && |next| == |out| + |ds| && next[..|out|] == out
    && forall k :: |out| <= k < |next| ==> next[k] == SumAt(Previous(out, |out|), ds, k - |out| + 1)
  }

  lemma {:induction false} SumsOfDeltas(ids: seq<nat>, from: nat, to: nat, ds: seq<nat>, n: nat)
    requires from <= to <= |ids| && ds == Deltas(ids, from, to) && n <= |ds|
    ensures SumAt(Previous(ids, from), ds, n) == Previous(ids, from + n)
  {
    if n > 0 {
      SumsOfDeltas(ids, from, to, ds, n - 1);
      assert ds[n - 1] == Delta(ids, from + n - 1);
    }
  }

  /** Undo the deltas of one block; an ID at or past `docCount` is an error. */
  method AddDeltas(out: seq<nat>, ds: seq<nat>, docCount: nat) returns (r: Result<seq<nat>>)
    requires IdList(out, docCount)
    ensures r.Ok? ==> IdList(r.value, docCount) && Added(out, ds, r.value)
    ensures r.Err? ==> !AllBelow(Previous(out, |out|), ds, docCount)
  {
    var ids: seq<nat> := out;
    assert out[..|out|] == out;
    for n := 0 to |ds|
      invariant IdList(ids, docCount) && |ids| == |out| + n && ids[..|out|] == out
      invariant forall k :: |out| <= k < |ids| ==> ids[k] == SumAt(Previous(out, |out|), ds, k - |out| + 1)
      invariant Previous(ids, |ids|) == SumAt(Previous(out, |out|), ds, n)
    {
      var id: int := Previous(ids, |ids|) + ds[n] + 1;
      assert SumAt(Previous(out, |out|), ds, n + 1) == id;
      if id >= docCount {
        return Err;
      }
      ListGrows(ids, docCount, id);
      ids := ids + [id];
    }
    return Ok(ids);
  }

  lemma ListGrows(ids: seq<nat>, docCount: nat, id: nat)
    requires IdList(ids, docCount) && Previous(ids, |ids|) < id < docCount
    ensures IdList(ids + [id], docCount)
  {
    forall i | 0 <= i < |ids| ensures ids[i] < id {
      assert i < |ids| - 1 ==> IdLess(ids[i], ids[|ids| - 1]);
    }
  }

  /** `unpacked` is what every packing into these bytes unpacks to. */
  ghost predicate Unpacks(packed: seq<nat>, width: nat, unpacked: seq<nat>) {
    forall ds :: |ds| == |unpacked| && Below(ds, Pow2(width)) && IsPacked(packed, ds, width) ==> unpacked == ds
  }

  /** The decoder is on track for `ids`: it has its first IDs, and the rest is encoded ahead. */
  ghost predicate Tracks(bytes: seq<nat>, cursor: nat, out: seq<nat>, ids: seq<nat>) {
    |out| <= |ids| && out == ids[..|out|] && EncodedFrom(bytes, cursor, ids, |out|)
  }

  ghost predicate AllTrack(bytes: seq<nat>, count: nat, docCount: nat, cursor: nat, out: seq<nat>) {
    forall ids :: |ids| == count && IdList(ids, docCount) && EncodedDeltas(bytes, ids) ==> Tracks(bytes, cursor, out, ids)
  }

  /** No list of that length encodes to these bytes. */
  ghost predicate NotEncoded(bytes: seq<nat>, count: nat, docCount: nat) {
    forall ids :: |ids| == count && IdList(ids, docCount) ==> !EncodedDeltas(bytes, ids)
  }

  function BlockSize(count: nat, from: nat): nat
    requires from <= count
  {
    BlockStop(count, from) - from
  }

  lemma NextBlock(bytes: seq<nat>, cursor: nat, ids: seq<nat>, from: nat) returns (b: nat)
    requires EncodedFrom(bytes, cursor, ids, from) && from < |ids|
    ensures IsBlock(bytes, cursor, b, ids, from) && EncodedFrom(bytes, b, ids, BlockStop(|ids|, from))
  {
    b :| IsBlock(bytes, cursor, b, ids, from) && EncodedFrom(bytes, b, ids, BlockStop(|ids|, from));
  }

  lemma BlockShape(bytes: seq<nat>, a: nat, b: nat, ids: seq<nat>, from: nat)
    requires IsBlock(bytes, a, b, ids, from)
    ensures a < b <= |bytes| && from < |ids| && 1 <= bytes[a] <= 32 && b == a + 1 + PackedLen(BlockSize(|ids|, from), bytes[a])
  {
    var ds: seq<nat> :|
      && ds == Deltas(ids, from, BlockStop(|ids|, from)) && Below(ds, Pow2(bytes[a]))
      && IsPacked(bytes[a + 1..b], ds, bytes[a]);
    hide PackedLen, Pow2, Digits;
  }

  lemma BlockUnpacks(bytes: seq<nat>, a: nat, b: nat, ids: seq<nat>, from: nat, unpacked: seq<nat>)
    requires IsBlock(bytes, a, b, ids, from) && |unpacked| == BlockSize(|ids|, from) && Unpacks(bytes[a + 1..b], bytes[a], unpacked)
    ensures unpacked == Deltas(ids, from, BlockStop(|ids|, from))
  {
    hide PackedLen, Pow2, Digits, IsPacked, Below;
  }

  lemma TrackedBlock(bytes: seq<nat>, cursor: nat, out: seq<nat>, ids: seq<nat>)
    requires Tracks(bytes, cursor, out, ids) && |out| < |ids|
    ensures cursor < |bytes| && 1 <= bytes[cursor] <= 32
    ensures cursor + 1 + PackedLen(BlockSize(|ids|, |out|), bytes[cursor]) <= |bytes|
  {
    hide IsBlock, PackedLen;
    var b := NextBlock(bytes, cursor, ids, |out|);
    BlockShape(bytes, cursor, b, ids, |out|);
  }

  lemma TrackedNext(bytes: seq<nat>, cursor: nat, out: seq<nat>, ids: seq<nat>, unpacked: seq<nat>, docCount: nat, stop: nat)
    requires Tracks(bytes, cursor, out, ids) && |out| < |ids| && IdList(ids, docCount) && cursor < stop <= |bytes|
    requires |unpacked| == BlockSize(|ids|, |out|) && stop == cursor + 1 + PackedLen(|unpacked|, bytes[cursor])
    requires Unpacks(bytes[cursor + 1..stop], bytes[cursor], unpacked)
    ensures AllBelow(Previous(out, |out|), unpacked, docCount)
    ensures forall next :: Added(out, unpacked, next) ==> Tracks(bytes, stop, next, ids)
  {
    var n, from := |unpacked|, |out|;
    hide IsBlock, EncodedFrom, PackedLen, Unpacks;
    var b := NextBlock(bytes, cursor, ids, from);
    BlockShape(bytes, cursor, b, ids, from);
    BlockUnpacks(bytes, cursor, b, ids, from, unpacked);
    assert Previous(out, from) == Previous(ids, from);
    forall i | 0 < i <= n ensures SumAt(Previous(out, from), unpacked, i) == ids[from + i - 1] {
      SumsOfDeltas(ids, from, from + n, unpacked, i);
    }
    forall next | Added(out, unpacked, next) ensures next == ids[..from + n] {
      forall k | from <= k < from + n ensures next[k] == ids[k] {
        assert next[k] == SumAt(Previous(out, from), unpacked, k - from + 1);
      }
      PrefixIs(next, out, ids, n);
    }
  }

  lemma PrefixIs(next: seq<nat>, out: seq<nat>, ids: seq<nat>, n: nat)
    requires |next| == |out| + n <= |ids| && next[..|out|] == out == ids[..|out|]
    requires forall k :: |out| <= k < |out| + n ==> next[k] == ids[k]
    ensures next == ids[..|out| + n]
  {
    forall k | 0 <= k < |next| ensures next[k] == ids[k] {
      if k < |out| {
        assert next[..|out|][k] == ids[..|out|][k];
      }
    }
  }

  /**
   `decode_delta_blocks`: anything accepted is exactly `count` strictly ascending IDs below
   `docCount`, and an encoded list comes back unchanged.
   */
  method DecodeDeltaBlocks(bytes: seq<nat>, count: nat, docCount: nat) returns (r: Result<seq<nat>>)
    requires docCount <= ID_LIMIT && Below(bytes, 256)
    ensures r.Ok? ==> |r.value| == count && IdList(r.value, docCount)
    ensures forall ids :: |ids| == count && IdList(ids, docCount) && EncodedDeltas(bytes, ids) ==> r == Ok(ids)
  {
    hide *;
    CountAtMost(count, docCount);
    if count > docCount {
      return Err;
    }
    var ids: seq<nat>, cursor: nat := [], 0;
    StartsOnTrack(bytes, count, docCount);
    while |ids| < count
      invariant |ids| <= count && cursor <= |bytes| && IdList(ids, docCount) && AllTrack(bytes, count, docCount, cursor, ids)
    {
      var step := DecodeBlock(bytes, count, docCount, cursor, ids);
      if step.Err? {
        NoneEncoded(bytes, count, docCount);
        return Err;
      }
      cursor, ids := step.value.0, step.value.1;
    }
    EndsOnTrack(bytes, count, docCount, cursor, ids);
    if cursor != |bytes| {
      return Err;
    }
    return Ok(ids);
  }

  lemma StartsOnTrack(bytes: seq<nat>, count: nat, docCount: nat)
    ensures AllTrack(bytes, count, docCount, 0, []) && IdList([], docCount)
  {
  }

  lemma NoneEncoded(bytes: seq<nat>, count: nat, docCount: nat)
    requires NotEncoded(bytes, count, docCount)
    ensures forall ids :: |ids| == count && IdList(ids, docCount) ==> !EncodedDeltas(bytes, ids)
  {
  }

  lemma EndsOnTrack(bytes: seq<nat>, count: nat, docCount: nat, cursor: nat, out: seq<nat>)
    requires AllTrack(bytes, count, docCount, cursor, out) && |out| == count
    ensures forall ids :: |ids| == count && IdList(ids, docCount) && EncodedDeltas(bytes, ids) ==> out == ids && cursor == |bytes|
  {
    forall ids | |ids| == count && IdList(ids, docCount) && EncodedDeltas(bytes, ids) ensures out == ids && cursor == |bytes| {
      assert Tracks(bytes, cursor, out, ids);
      assert ids[..count] == ids;
    }
  }

  /** One turn of the decoding loop: header, packed deltas, running sums. */
  method DecodeBlock(bytes: seq<nat>, count: nat, docCount: nat, cursor: nat, out: seq<nat>) returns (r: Result<(nat, seq<nat>)>)
    requires Below(bytes, 256) && |out| < count && cursor <= |bytes| && IdList(out, docCount)
    requires AllTrack(bytes, count, docCount, cursor, out)
    ensures r.Err? ==> NotEncoded(bytes, count, docCount)
    ensures r.Ok? ==>
      && r.value.0 <= |bytes| && |out| < |r.value.1| <= count && IdList(r.value.1, docCount)
      && AllTrack(bytes, count, docCount, r.value.0, r.value.1)
  {
    BlockAhead(bytes, count, docCount, cursor, out);
    if cursor >= |bytes| {
      return Err;
    }
    var width := bytes[cursor];
    if !(1 <= width <= 32) {
      return Err;
    }
    var n := BlockSize(count, |out|);
    assert 0 < n <= count - |out|;
    var stop := cursor + 1 + PackedLen(n, width);
    if stop > |bytes| {
      return Err;
    }
    var packed := bytes[cursor + 1..stop];
    assert Below(packed, 256);
    hide IdList, AllTrack, NotEncoded, Pow2, IsPacked, PackedLen, SumAt, Below, AllBelow;
    var unpacked := UnpackIds(packed, n, width);
    assert Unpacks(packed, width, unpacked);
    BlockTracked(bytes, count, docCount, cursor, out, unpacked, stop);
    var added := AddDeltas(out, unpacked, docCount);
    if added.Err? {
      return Err;
    }
    return Ok((stop, added.value));
  }

  lemma BlockAhead(bytes: seq<nat>, count: nat, docCount: nat, cursor: nat, out: seq<nat>)
    requires AllTrack(bytes, count, docCount, cursor, out) && |out| < count
    ensures NotEncoded(bytes, count, docCount) || (cursor < |bytes| && 1 <= bytes[cursor] <= 32 &&
      cursor + 1 + PackedLen(BlockSize(count, |out|), bytes[cursor]) <= |bytes|)
  {
    hide IdList, EncodedDeltas, Tracks, PackedLen;
    if ids :| |ids| == count && IdList(ids, docCount) && EncodedDeltas(bytes, ids) {
      TrackedBlock(bytes, cursor, out, ids);
    }
  }

  lemma BlockTracked(bytes: seq<nat>, count: nat, docCount: nat, cursor: nat, out: seq<nat>, unpacked: seq<nat>, stop: nat)
    requires AllTrack(bytes, count, docCount, cursor, out) && |out| < count && cursor < stop <= |bytes|
    requires |unpacked| == BlockSize(count, |out|) && stop == cursor + 1 + PackedLen(|unpacked|, bytes[cursor])
    requires Unpacks(bytes[cursor + 1..stop], bytes[cursor], unpacked)
    ensures !AllBelow(Previous(out, |out|), unpacked, docCount) ==> NotEncoded(bytes, count, docCount)
    ensures forall next :: Added(out, unpacked, next) ==> AllTrack(bytes, count, docCount, stop, next)
  {
    hide IdList, EncodedDeltas, Tracks, PackedLen, SumAt, IsPacked, Pow2, Below, AllBelow, Unpacks, Added;
    forall ids | |ids| == count && IdList(ids, docCount) && EncodedDeltas(bytes, ids)
      ensures AllBelow(Previous(out, |out|), unpacked, docCount)
      ensures forall next :: Added(out, unpacked, next) ==> Tracks(bytes, stop, next, ids)
    {
      TrackedNext(bytes, cursor, out, ids, unpacked, docCount, stop);
    }
  }
}
