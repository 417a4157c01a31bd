/** Bit-packed posting blocks, dense, complemented or plain (crates/index/src/lib.rs). */
module Postings {
  import opened Wrappers
  import opened Sorting
  import opened Bits

  /** Document IDs and counts are 32-bit. */
  const ID_LIMIT: nat := 0x1_0000_0000

  /** The number of significant bits of `n`: 32 minus its leading zeros, for a u32. */
  function BitLen(n: nat): nat {
    if n == 0 then 0 else 1 + BitLen(n / 2)
  }

  /** `posting_id_bits`: wide enough for the largest ID below `docCount`, and at least 1. */
  function PostingIdBits(docCount: nat): nat {
    var bits := BitLen(if docCount == 0 then 0 else docCount - 1);
    if bits < 1 then 1 else bits
  }

  /** `stored_id_count`: nothing when every document has the gram, else the smaller side. */
  function StoredIdCount(count: nat, docCount: nat): nat {
    if count == docCount then 0
    else if count * 2 > docCount then (if count > docCount then 0 else docCount - count)
    else count
  }

  /** `posting_block_len`: the packed bits, rounded up to whole bytes. */
  function PostingBlockLen(count: nat, docCount: nat): nat {
    (StoredIdCount(count, docCount) * PostingIdBits(docCount) + 7) / 8
  }

  lemma LenIsPacked(count: nat, docCount: nat)
    ensures PostingBlockLen(count, docCount) == PackedLen(StoredIdCount(count, docCount), PostingIdBits(docCount))
  {
    SpanIsProduct(StoredIdCount(count, docCount), PostingIdBits(docCount));
  }

  lemma {:induction false} BitLenBounds(n: nat)
    ensures n < Pow2(BitLen(n)) && (n > 0 ==> Pow2(BitLen(n) - 1) <= n)
  {
    if n > 0 {
      BitLenBounds(n / 2);
      if n / 2 > 0 {
        Pow2Step(BitLen(n / 2));
      }
      Pow2Step(BitLen(n));
    }
  }

  /** The width is the least: one bit less is too narrow for some ID. */
  lemma IdBitsAreLeast(docCount: nat)
    ensures PostingIdBits(docCount) > 1 ==> docCount > 0 && docCount - 1 >= Pow2(PostingIdBits(docCount) - 1)
  {
    BitLenBounds(if docCount == 0 then 0 else docCount - 1);
  }

  /** The smaller side is stored: the list, or what it leaves out. */
  lemma StoresSmallerSide(count: nat, docCount: nat)
    requires count <= docCount
    ensures var stored := StoredIdCount(count, docCount);
      stored <= count && stored <= docCount - count && (stored == count || stored == docCount - count)
  {
  }

  /** Every ID fits the width, and the width never exceeds that of a 32-bit ID. */
  lemma IdBitsFit(docCount: nat)
    requires docCount <= ID_LIMIT
    ensures 1 <= PostingIdBits(docCount) <= 32
    ensures docCount <= Pow2(PostingIdBits(docCount))
  {
    var top := if docCount == 0 then 0 else docCount - 1;
    BitLenBounds(top);
    Pow2Is();
    if BitLen(top) > 32 {
      Pow2Grows(32, BitLen(top) - 1);
    }
    Pow2Grows(BitLen(top), PostingIdBits(docCount));
  }

  // ---------------------------------------------------------------------------------------------
  // ID lists and their complements

  ghost predicate IdList(ids: seq<nat>, docCount: nat) {
    StrictlySorted(IdLess, ids) && forall i :: 0 <= i < |ids| ==> ids[i] < docCount
  }

  /** The IDs below `n` that are not in the list. */
  function Missing(ids: seq<nat>, n: nat): seq<nat> {
    if n == 0 then [] else Missing(ids, n - 1) + (if n - 1 in ids then [] else [n - 1])
  }

  lemma {:induction false} MissingIs(ids: seq<nat>, n: nat)
    ensures StrictlySorted(IdLess, Missing(ids, n))
    ensures forall x :: x in Missing(ids, n) <==> 0 <= x < n && x !in ids
    ensures forall i :: 0 <= i < |Missing(ids, n)| ==> Missing(ids, n)[i] < n
  {
    if n > 0 {
      MissingIs(ids, n - 1);
      var rest := Missing(ids, n - 1);
      assert forall i :: 0 <= i < |rest| ==> rest[i] < n - 1;
    }
  }

  lemma FrontIsList(ids: seq<nat>, n: nat)
    requires IdList(ids, n) && ids != [] && ids[|ids| - 1] == n - 1
    ensures IdList(ids[..|ids| - 1], n - 1)
  {
    forall i | 0 <= i < |ids| - 1 ensures ids[i] < n - 1 {
      assert IdLess(ids[i], ids[|ids| - 1]);
    }
  }

  lemma {:induction false} IdListCount(ids: seq<nat>, n: nat)
    requires IdList(ids, n)
    ensures |ids| + |Missing(ids, n)| == n
  {
    assert ids != [] ==> ids[0] < n;
    if n == 0 {
    } else if n - 1 in ids {
      var last := |ids| - 1;
      assert ids[last] == n - 1 by {
        var i :| 0 <= i < |ids| && ids[i] == n - 1;
      }
      var front := ids[..last];
      assert ids == front + [n - 1];
      FrontIsList(ids, n);
      hide IdList;
      IdListCount(front, n - 1);
      MissingSame(ids, front, n - 1);
    } else {
      assert forall i :: 0 <= i < |ids| ==> ids[i] in ids;
      assert IdList(ids, n - 1);
      hide IdList;
      IdListCount(ids, n - 1);
    }
  }

  lemma {:induction false} MissingSame(a: seq<nat>, b: seq<nat>, n: nat)
    requires forall x :: 0 <= x < n ==> (x in a <==> x in b)
    ensures Missing(a, n) == Missing(b, n)
  {
    if n > 0 {
      MissingSame(a, b, n - 1);
    }
  }

  /** Complementing twice gives the list back. */
  lemma MissingTwice(ids: seq<nat>, n: nat)
    requires IdList(ids, n)
    ensures Missing(Missing(ids, n), n) == ids
  {
    MissingIs(ids, n);
    MissingIs(Missing(ids, n), n);
    IdLessTotal();
    hide Missing;
    forall x ensures x in Missing(Missing(ids, n), n) <==> x in ids {
    }
    SortedUnique(IdLess, Missing(Missing(ids, n), n), ids);
  }

  /** Walk the IDs below `docCount` beside the list and keep the ones it skips. */
  method Complement(ids: seq<nat>, docCount: nat) returns (absent: seq<nat>)
    requires IdList(ids, docCount)
    ensures absent == Missing(ids, docCount)
  {
    absent := [];
    var p := 0;
    for id := 0 to docCount
      invariant p <= |ids| && absent == Missing(ids, id)
      invariant forall k :: 0 <= k < p ==> ids[k] < id
      invariant p < |ids| ==> ids[p] >= id
    {
      NextListed(ids, p, id);
      if p < |ids| && ids[p] == id {
        p := p + 1;
      } else {
        absent := absent + [id];
      }
    }
  }

  lemma NextListed(ids: seq<nat>, p: nat, id: nat)
    requires StrictlySorted(IdLess, ids) && p <= |ids| && (forall k :: 0 <= k < p ==> ids[k] < id) && (p < |ids| ==> ids[p] >= id)
    ensures id in ids <==> p < |ids| && ids[p] == id
    ensures p + 1 < |ids| && ids[p] == id ==> ids[p + 1] >= id + 1
  {
    if id in ids {
      var k :| 0 <= k < |ids| && ids[k] == id;
      assert k > p ==> IdLess(ids[p], ids[k]);
    }
    assert p + 1 < |ids| ==> IdLess(ids[p], ids[p + 1]);
  }

  // ---------------------------------------------------------------------------------------------
  // The codec

  /** The representation class is a function of the two counts alone. */
  ghost predicate Encoded(bytes: seq<nat>, ids: seq<nat>, docCount: nat) {
    var width := PostingIdBits(docCount);
    if |ids| == docCount then bytes == []
    else if |ids| * 2 > docCount then IsPacked(bytes, Missing(ids, docCount), width)
    else IsPacked(bytes, ids, width)
  }

  lemma FitsWidth(ids: seq<nat>, docCount: nat)
    requires docCount <= ID_LIMIT && forall i :: 0 <= i < |ids| ==> ids[i] < docCount
    ensures Below(ids, Pow2(PostingIdBits(docCount)))
  {
    IdBitsFit(docCount);
  }

  /** `encode_posting_block`: the block has exactly the length the reader derives from the counts. */
  method EncodePostingBlock(ids: seq<nat>, docCount: nat) returns (bytes: seq<nat>)
    requires IdList(ids, docCount) && docCount < ID_LIMIT
    ensures Encoded(bytes, ids, docCount) && |bytes| == PostingBlockLen(|ids|, docCount)
  {
    var count := |ids|;
    LenIsPacked(count, docCount);
    IdBitsFit(docCount);
    hide Missing, PostingIdBits, Pow2, PackedLen, Below, IsPacked, PostingBlockLen;
    if count == docCount {
      assert PackedLen(0, PostingIdBits(docCount)) == 0 by { NothingStored(PostingIdBits(docCount)); }
      return [];
    }
    var width := PostingIdBits(docCount);
    if count * 2 > docCount {
      var absent := Complement(ids, docCount);
      IdListCount(ids, docCount);
      MissingIs(ids, docCount);
      FitsWidth(absent, docCount);
      bytes := PackIds(absent, width);
      PackedHasLen(bytes, absent, width);
    } else {
      FitsWidth(ids, docCount);
      bytes := PackIds(ids, width);
      PackedHasLen(bytes, ids, width);
    }
  }

  lemma NothingStored(width: nat)
    ensures PackedLen(0, width) == 0
  {
  }

  lemma PackedHasLen(bytes: seq<nat>, ids: seq<nat>, width: nat)
    requires IsPacked(bytes, ids, width)
    ensures |bytes| == PackedLen(|ids|, width)
  {
  }

  /** Strictly ascending and in range, checked on neighbours and the last ID as the source does. */
  method CheckIds(stored: seq<nat>, docCount: nat) returns (ok: bool)
    ensures ok <==> IdList(stored, docCount)
  {
    var i := 1;
    while i < |stored|
      invariant 1 <= i && forall a, b :: 0 <= a < b < i && b < |stored| ==> stored[a] < stored[b]
    {
      if !(stored[i - 1] < stored[i]) {
        assert IdList(stored, docCount) ==> IdLess(stored[i - 1], stored[i]);
        return false;
      }
      i := i + 1;
    }
    if stored != [] && stored[|stored| - 1] >= docCount {
      return false;
    }
    return true;
  }

  /**
   `decode_posting_block`: anything accepted is exactly `count` strictly ascending IDs below
   `docCount`, and an encoded list comes back unchanged.
   */
  method DecodePostingBlock(bytes: seq<nat>, count: nat, docCount: nat) returns (r: Result<seq<nat>>)
    requires docCount < ID_LIMIT && Below(bytes, 256)
    ensures r.Ok? ==> |r.value| == count && IdList(r.value, docCount)
    ensures forall ids :: |ids| == count && IdList(ids, docCount) && Encoded(bytes, ids, docCount) ==> r == Ok(ids)
  {
    CountAtMost(count, docCount);
    if count > docCount {
      return Err;
    }
    LenIsPacked(count, docCount);
    EncodedHasLen(bytes, count, docCount);
    if |bytes| != PostingBlockLen(count, docCount) {
      return Err;
    }
    if count == docCount {
      WholeRange(docCount);
      return Ok(Missing([], docCount));
    }
    IdBitsFit(docCount);
    hide Missing, PostingIdBits, Pow2, PackedLen, Below, IsPacked, PostingBlockLen, IdList;
    var stored := UnpackIds(bytes, StoredIdCount(count, docCount), PostingIdBits(docCount));
    forall ids | |ids| == count && IdList(ids, docCount) && Encoded(bytes, ids, docCount)
      ensures stored == if count * 2 > docCount then Missing(ids, docCount) else ids
    {
      StoredIs(bytes, ids, docCount, stored);
    }
    StoredAccepted(docCount, count, stored, bytes);
    var ok := CheckIds(stored, docCount);
    if !ok {
      return Err;
    }
    if count * 2 > docCount {
      var present := Complement(stored, docCount);
      IdListCount(stored, docCount);
      PresentIs(stored, docCount);
      forall ids | |ids| == count && IdList(ids, docCount) && Encoded(bytes, ids, docCount) ensures present == ids {
        MissingTwice(ids, docCount);
      }
      return Ok(present);
    }
    return Ok(stored);
  }

  lemma CountAtMost(count: nat, docCount: nat)
    ensures forall ids :: |ids| == count && IdList(ids, docCount) ==> count <= docCount
  {
    forall ids | |ids| == count && IdList(ids, docCount) ensures count <= docCount {
      IdListCount(ids, docCount);
    }
  }

  lemma EncodedHasLen(bytes: seq<nat>, count: nat, docCount: nat)
    ensures forall ids :: |ids| == count && IdList(ids, docCount) && Encoded(bytes, ids, docCount) ==> |bytes| == PostingBlockLen(count, docCount)
  {
    LenIsPacked(count, docCount);
    forall ids | |ids| == count && IdList(ids, docCount) && Encoded(bytes, ids, docCount) ensures |bytes| == PostingBlockLen(count, docCount) {
      IdListCount(ids, docCount);
    }
  }

  lemma WholeRange(docCount: nat)
    ensures |Missing([], docCount)| == docCount && IdList(Missing([], docCount), docCount)
    ensures forall ids :: |ids| == docCount && IdList(ids, docCount) ==> ids == Missing([], docCount)
  {
    IdListCount([], docCount);
    MissingIs([], docCount);
    IdLessTotal();
    forall ids | |ids| == docCount && IdList(ids, docCount) ensures ids == Missing([], docCount) {
      IdListCount(ids, docCount);
      MissingIs(ids, docCount);
      forall x ensures x in ids <==> x in Missing([], docCount) {
        assert x in Missing(ids, docCount) <==> 0 <= x < docCount && x !in ids;
      }
      SortedUnique(IdLess, ids, Missing([], docCount));
    }
  }

  lemma StoredIs(bytes: seq<nat>, ids: seq<nat>, docCount: nat, stored: seq<nat>)
    requires docCount < ID_LIMIT && IdList(ids, docCount) && Encoded(bytes, ids, docCount) && |ids| != docCount
    requires forall xs :: |xs| == StoredIdCount(|ids|, docCount) && Below(xs, Pow2(PostingIdBits(docCount))) && IsPacked(bytes, xs, PostingIdBits(docCount)) ==> stored == xs
    ensures stored == if |ids| * 2 > docCount then Missing(ids, docCount) else ids
  {
    IdListCount(ids, docCount);
    MissingIs(ids, docCount);
    FitsWidth(ids, docCount);
    FitsWidth(Missing(ids, docCount), docCount);
    hide Missing, PostingIdBits, Pow2, IsPacked, Below;
  }

  /** The stored side of an encoded list passes the checks. */
  lemma StoredAccepted(docCount: nat, count: nat, stored: seq<nat>, bytes: seq<nat>)
    requires forall ids :: |ids| == count && IdList(ids, docCount) && Encoded(bytes, ids, docCount) ==>
               stored == if count * 2 > docCount then Missing(ids, docCount) else ids
    ensures forall ids :: |ids| == count && IdList(ids, docCount) && Encoded(bytes, ids, docCount) ==> IdList(stored, docCount)
  {
    hide Encoded, Missing;
    forall ids | |ids| == count && IdList(ids, docCount) && Encoded(bytes, ids, docCount) ensures IdList(stored, docCount) {
      MissingIs(ids, docCount);
    }
  }

  lemma PresentIs(stored: seq<nat>, docCount: nat)
    ensures IdList(Missing(stored, docCount), docCount)
  {
    MissingIs(stored, docCount);
  }
}
