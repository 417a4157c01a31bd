/**
 Building packs (`PackBuilder` in crates/index/src/pack.rs) and the coordinates check every reader
 runs (`SegmentTables::validate` in crates/index/src/format.rs).
 */
module PackBuild {
  import opened Wrappers
  import opened Slices
  import opened PackRead

  /** The block codec as an inverse pair, and the digest that guards compressed blocks. */
  datatype Codec = Codec(compress: seq<Byte> -> seq<Byte>, decompress: seq<Byte> -> Option<seq<Byte>>, digest: seq<Byte> -> nat)

  ghost predicate CodecOk(z: Codec) {
    forall x :: z.decompress(z.compress(x)) == Some(x) && |z.compress(x)| > 0
  }

  datatype PackBlock = PackBlock(pack: nat, offset: nat, compressedLen: nat, decodedLen: nat, hash: nat)

  /** Fetch, verify and decompress one block; `None` is any of the reader's errors. */
  function ReadBlock(z: Codec, packs: seq<seq<Byte>>, b: PackBlock): Option<seq<Byte>> {
    if b.pack >= |packs| || b.offset + b.compressedLen > |packs[b.pack]| then None
    else
      var bytes := packs[b.pack][b.offset..b.offset + b.compressedLen];
      if z.digest(bytes) != b.hash then None
      else
        match z.decompress(bytes)
        case None => None
        case Some(decoded) => if |decoded| == b.decodedLen then Some(decoded) else None
  }

  // ---------------------------------------------------------------------------------------------
  // What the builder maintains

  function AllPacks(packs: seq<seq<Byte>>, active: Option<seq<Byte>>): seq<seq<Byte>> {
    match active
    case None => packs
    case Some(bytes) => packs + [bytes]
  }

  /** Every flushed block reads back as the bytes it was given. */
  ghost predicate Stored(z: Codec, decoded: seq<seq<Byte>>, blocks: seq<PackBlock>, packs: seq<seq<Byte>>) {
    |blocks| == |decoded| && forall k :: 0 <= k < |blocks| ==> ReadBlock(z, packs, blocks[k]) == Some(decoded[k])
  }

  /** Block `k` follows its predecessor: right behind it, or first in the next pack. */
  predicate Follows(blocks: seq<PackBlock>, k: nat)
    requires k < |blocks|
  {
    && blocks[k].compressedLen > 0
    && (if k == 0 then blocks[k].offset == 0
        else
          var prev := blocks[k - 1];
          (blocks[k].pack == prev.pack && blocks[k].offset == prev.offset + prev.compressedLen) ||
          (blocks[k].pack == prev.pack + 1 && blocks[k].offset == 0))
  }

  ghost predicate LaidOut(blocks: seq<PackBlock>) {
    forall k :: 0 <= k < |blocks| ==> Follows(blocks, k)
  }

  /** The last block ends the last pack. */
  ghost predicate EndsAt(blocks: seq<PackBlock>, packs: seq<seq<Byte>>) {
    if blocks == [] then packs == []
    else
      var last := blocks[|blocks| - 1];
      last.pack + 1 == |packs| && last.offset + last.compressedLen == |packs[last.pack]|
  }

  function Sizes(decoded: seq<seq<Byte>>): (r: seq<nat>)
    ensures Lengths(decoded, r)
  {
    seq(|decoded|, k requires 0 <= k < |decoded| => |decoded[k]|)
  }

  lemma {:induction false} ConcatPrefix(decoded: seq<seq<Byte>>, more: seq<seq<Byte>>, k: nat)
    requires k <= |decoded|
    ensures Concat(decoded + more, k) == Concat(decoded, k)
  {
    if k > 0 {
      ConcatPrefix(decoded, more, k - 1);
    }
  }

  lemma StreamGrows(decoded: seq<seq<Byte>>, block: seq<Byte>)
    ensures PackRead.Stream(decoded + [block]) == PackRead.Stream(decoded) + block
  {
    ConcatPrefix(decoded, [block], |decoded|);
  }

  /** Appending to the active pack, or starting a new one, leaves every stored block readable. */
  lemma StoredGrows(z: Codec, decoded: seq<seq<Byte>>, blocks: seq<PackBlock>, packs: seq<seq<Byte>>, after: seq<seq<Byte>>)
    requires Stored(z, decoded, blocks, packs)
    requires |packs| <= |after| && forall p :: 0 <= p < |packs| ==> |packs[p]| <= |after[p]| && after[p][..|packs[p]|] == packs[p]
    ensures Stored(z, decoded, blocks, after)
  {
    forall k | 0 <= k < |blocks| ensures ReadBlock(z, after, blocks[k]) == Some(decoded[k]) {
      var b := blocks[k];
      assert ReadBlock(z, packs, b) == Some(decoded[k]);
      var old' := packs[b.pack];
      assert after[b.pack][..|old'|][b.offset..b.offset + b.compressedLen] == after[b.pack][b.offset..b.offset + b.compressedLen];
    }
  }

  lemma NewBlockReads(z: Codec, packs: seq<seq<Byte>>, active: seq<Byte>, block: seq<Byte>)
    requires CodecOk(z)
    ensures var c := z.compress(block);
      ReadBlock(z, packs + [active + c], PackBlock(|packs|, |active|, |c|, |block|, z.digest(c))) == Some(block)
  {
    var c := z.compress(block);
    var all := packs + [active + c];
    assert all[|packs|] == active + c;
    assert (active + c)[|active|..|active| + |c|] == c;
    assert z.decompress(z.compress(block)) == Some(block);
  }

  /** Flushing into the active pack: storage, layout and the end marker all carry over. */
  lemma FlushKeeps(z: Codec, decoded: seq<seq<Byte>>, blocks: seq<PackBlock>, packs: seq<seq<Byte>>, active: seq<Byte>, block: seq<Byte>)
    requires CodecOk(z) && block != []
    requires Stored(z, decoded, blocks, packs + [active]) || (active == [] && Stored(z, decoded, blocks, packs))
    requires LaidOut(blocks)
    requires if active == [] then EndsAt(blocks, packs) else EndsAt(blocks, packs + [active])
    ensures var c := z.compress(block);
      var next := PackBlock(|packs|, |active|, |c|, |block|, z.digest(c));
      && Stored(z, decoded + [block], blocks + [next], packs + [active + c])
      && LaidOut(blocks + [next]) && EndsAt(blocks + [next], packs + [active + c])
  {
    var c := z.compress(block);
    var next := PackBlock(|packs|, |active|, |c|, |block|, z.digest(c));
    var after := packs + [active + c];
    NewBlockReads(z, packs, active, block);
    if Stored(z, decoded, blocks, packs + [active]) {
      StoredGrows(z, decoded, blocks, packs + [active], after);
    } else {
      StoredGrows(z, decoded, blocks, packs, after);
    }
    assert z.decompress(z.compress(block)) == Some(block) && |c| > 0;
    hide ReadBlock, CodecOk;
    LaidOutGrows(blocks, next);
  }

  lemma LaidOutGrows(blocks: seq<PackBlock>, next: PackBlock)
    requires LaidOut(blocks) && Follows(blocks + [next], |blocks|)
    ensures LaidOut(blocks + [next])
  {
    forall k | 0 <= k < |blocks| ensures Follows(blocks + [next], k) {
      assert Follows(blocks, k);
    }
  }

  /** A block shares the pack of the one before it exactly when both fit the pack size. */
  predicate Rotated(blocks: seq<PackBlock>, packBytes: nat) {
    forall k :: 0 < k < |blocks| ==> Shares(blocks, k, packBytes)
  }

  predicate Shares(blocks: seq<PackBlock>, k: nat, packBytes: nat)
    requires 0 < k < |blocks|
  {
    var prev := blocks[k - 1];
    blocks[k].pack == prev.pack <==> prev.offset + prev.compressedLen + blocks[k].compressedLen <= packBytes
  }

  lemma RotatedGrows(blocks: seq<PackBlock>, next: PackBlock, packBytes: nat)
    requires Rotated(blocks, packBytes) && (blocks != [] ==> Shares(blocks + [next], |blocks|, packBytes))
    ensures Rotated(blocks + [next], packBytes)
  {
    forall k | 0 < k < |blocks| ensures Shares(blocks + [next], k, packBytes) {
      assert Shares(blocks, k, packBytes);
    }
  }

  /** The next block goes behind the last one of the active pack if it fits there, else first into a new pack. */
  lemma NextShares(blocks: seq<PackBlock>, packs: seq<seq<Byte>>, active: seq<Byte>, next: PackBlock, packBytes: nat)
    requires blocks != [] && EndsAt(blocks, packs + [active]) && active != []
    requires if |active| + next.compressedLen <= packBytes then next.pack == |packs| else next.pack == |packs| + 1
    ensures Shares(blocks + [next], |blocks|, packBytes)
  {
    assert (packs + [active])[|packs|] == active;
  }

  predicate AllFull(decoded: seq<seq<Byte>>, size: nat) {
    forall k :: 0 <= k < |decoded| ==> |decoded[k]| == size
  }

  predicate AllSized(decoded: seq<seq<Byte>>, size: nat) {
    forall k :: 0 <= k < |decoded| ==> 0 < |decoded[k]| <= size
  }

  lemma FullGrows(decoded: seq<seq<Byte>>, block: seq<Byte>)
    ensures AllFull(decoded, |block|) ==> AllFull(decoded + [block], |block|)
  {
  }

  lemma SizesGrow(decoded: seq<seq<Byte>>, block: seq<Byte>, size: nat)
    requires AllFull(decoded, size) && |block| < size
    ensures AllSized(decoded, size) && (block != [] ==> AllSized(decoded + [block], size))
  {
  }

  lemma TakeMore(x: seq<Byte>, at: nat, read: nat)
    requires at + read <= |x|
    ensures x[..at + read] == x[..at] + x[at..at + read]
  {
  }

  class PackBuilder {
    const z: Codec
    const blockBytes: nat
    const packBytes: nat
    var block: seq<Byte>
    var blocks: seq<PackBlock>
    var packs: seq<seq<Byte>>
    var active: Option<seq<Byte>>
    /** The decoded bytes of every flushed block. */
    ghost var decoded: seq<seq<Byte>>

    ghost predicate Flushed()
      reads this
    {
      && CodecOk(z) && blockBytes > 0
      && (active.Some? ==> active.value != [])
      && Stored(z, decoded, blocks, AllPacks(packs, active))
      && LaidOut(blocks) && EndsAt(blocks, AllPacks(packs, active)) && Rotated(blocks, packBytes)
    }

    /** The pack of the last block is still open. */
    ghost predicate Open()
      reads this
    {
      blocks != [] ==> active.Some?
    }

    ghost predicate Valid()
      reads this
    {
      Flushed() && Open() && |block| < blockBytes && AllFull(decoded, blockBytes)
    }

    /** Everything appended so far, in order. */
    ghost function Stream(): seq<Byte>
      reads this
    {
      PackRead.Stream(decoded) + block
    }

    constructor (z: Codec, blockBytes: nat, packBytes: nat)
      requires CodecOk(z) && blockBytes > 0
      ensures Valid() && decoded == [] && Stream() == []
      ensures this.z == z && this.blockBytes == blockBytes && this.packBytes == packBytes
    {
      this.z, this.blockBytes, this.packBytes := z, blockBytes, packBytes;
      block, blocks, packs, active, decoded := [], [], [], None, [];
    }

    method FinishPack()
      requires Flushed()
      modifies this`packs, this`active
      ensures Flushed() && active == None && packs == AllPacks(old(packs), old(active))
    {
      if active.None? {
        return;
      }
      packs := packs + [active.value];
      active := None;
    }

    /** Compress the pending block into the active pack, rotating to a new pack when it would overflow. */
    method FlushBlock()
      requires Flushed() && Open() && |block| <= blockBytes
      modifies this
      ensures Flushed() && Open() && block == []
      ensures decoded == if old(block) == [] then old(decoded) else old(decoded) + [old(block)]
    {
      if block == [] {
        return;
      }
      var compressed := z.compress(block);
      ghost var closed, last := packs, active;
      if active.Some? && |active.value| > 0 && |active.value| + |compressed| > packBytes {
        FinishPack();
      }
      var pack: seq<Byte> := if active.Some? then active.value else [];
      FlushKeeps(z, decoded, blocks, packs, pack, block);
      assert |compressed| > 0;
      ghost var next := PackBlock(|packs|, |pack|, |compressed|, |block|, z.digest(compressed));
      if blocks != [] {
        NextShares(blocks, closed, last.value, next, packBytes);
      }
      RotatedGrows(blocks, next, packBytes);
      blocks := blocks + [PackBlock(|packs|, |pack|, |compressed|, |block|, z.digest(compressed))];
      active := Some(pack + compressed);
      decoded := decoded + [block];
      block := [];
    }

    /** Add bytes that fit the pending block, flushing it when full. */
    method Fill(piece: seq<Byte>)
      requires Valid() && |block| + |piece| <= blockBytes
      modifies this
      ensures Valid() && Stream() == old(Stream()) + piece && old(decoded) <= decoded
    {
      FullGrows(decoded, block + piece);
      hide Stored, LaidOut, EndsAt, ReadBlock, CodecOk, AllPacks, PackRead.Stream, AllFull, Rotated;
      Associative(PackRead.Stream(decoded), block, piece);
      block := block + piece;
      if |block| == blockBytes {
        StreamGrows(decoded, block);
        FlushBlock();
      }
    }

    lemma Facts()
      requires Valid()
      ensures |block| < blockBytes && |blocks| == |decoded| && AllFull(decoded, blockBytes)
      ensures Stream() == PackRead.Stream(decoded) + block
    {
    }

    /** Append a document of `len` bytes; the slice says where it begins. */
    method Append(reader: seq<Byte>, len: nat) returns (r: Result<Slice>)
      requires Valid()
      modifies this
      ensures r.Ok? <==> |reader| >= len
      ensures r.Ok? ==> Valid() && Stream() == old(Stream()) + reader[..len]
      ensures r.Ok? ==> r.value == if len == 0 then Slice(0, 0) else Slice(|old(decoded)|, |old(block)|)
      ensures r.Ok? ==> old(decoded) <= decoded
    {
      hide *;
      Facts();
      if len == 0 {
        assert reader[..0] == [];
        return Ok(Slice(0, 0));
      }
      var slice := Slice(|blocks|, |block|);
      var remaining, at := len, 0;
      assert reader[..0] == [];
      Facts();
      assert Stream() + [] == Stream();
      while remaining > 0
        invariant Valid() && at + remaining == len && remaining >= 0 && at <= |reader|
        invariant Stream() == old(Stream()) + reader[..at] && old(decoded) <= decoded
        decreases remaining
      {
        Facts();
        var available := blockBytes - |block|;
        var read := if remaining < available then remaining else available;
        if at + read > |reader| {
          return Err;
        }
        TakeMore(reader, at, read);
        Associative(old(Stream()), reader[..at], reader[at..at + read]);
        Fill(reader[at..at + read]);
        remaining := remaining - read;
        at := at + read;
      }
      assert at == len;
      return Ok(slice);
    }

    /** Flush what is pending and close the last pack. */
    method Finish() returns (built: (seq<seq<Byte>>, seq<PackBlock>))
      requires Valid()
      modifies this
      ensures Stored(z, decoded, built.1, built.0) && LaidOut(built.1) && EndsAt(built.1, built.0)
      ensures Rotated(built.1, packBytes)
      ensures PackRead.Stream(decoded) == old(Stream()) && AllSized(decoded, blockBytes)
      ensures decoded == if old(block) == [] then old(decoded) else old(decoded) + [old(block)]
    {
      SizesGrow(decoded, block, blockBytes);
      StreamGrows(decoded, block);
      assert PackRead.Stream(decoded) + [] == PackRead.Stream(decoded);
      hide Stored, LaidOut, EndsAt, ReadBlock, CodecOk, PackRead.Stream, AllFull, AllSized, AllPacks, Rotated;
      FlushBlock();
      FinishPack();
      return (packs, blocks);
    }
  }
}
