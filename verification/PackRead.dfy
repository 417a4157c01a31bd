/**
 Reading documents out of shared pack blocks (`block_span`, `document_blocks` and `read_range` in
 crates/index/src/pack.rs).
 */
module PackRead {
  import opened Wrappers
  import opened Slices

  /** Where a document begins: a block and an offset inside its decoded bytes. */
  datatype Slice = Slice(firstBlock: nat, blockOffset: nat)

  datatype DocumentBlock = DocumentBlock(blockId: nat, start: nat, offset: nat, len: nat)

  // ---------------------------------------------------------------------------------------------
  // The decoded stream

  /** Total decoded length of the first `k` blocks. */
  function Start(lens: seq<nat>, k: nat): nat
    requires k <= |lens|
  {
    if k == 0 then 0 else Start(lens, k - 1) + lens[k - 1]
  }

  lemma {:induction false} StartGrows(lens: seq<nat>, j: nat, k: nat)
    requires j <= k <= |lens|
    ensures Start(lens, j) <= Start(lens, k)
    decreases k
  {
    if j < k {
      StartGrows(lens, j, k - 1);
    }
  }

  function Concat(decoded: seq<seq<Byte>>, k: nat): seq<Byte>
    requires k <= |decoded|
  {
    if k == 0 then [] else Concat(decoded, k - 1) + decoded[k - 1]
  }

  /** All decoded bytes, in block order. */
  function Stream(decoded: seq<seq<Byte>>): seq<Byte> { Concat(decoded, |decoded|) }

  ghost predicate Lengths(decoded: seq<seq<Byte>>, lens: seq<nat>) {
    |decoded| == |lens| && forall k :: 0 <= k < |lens| ==> |decoded[k]| == lens[k]
  }

  lemma {:induction false} ConcatLength(decoded: seq<seq<Byte>>, lens: seq<nat>, k: nat)
    requires Lengths(decoded, lens) && k <= |lens|
    ensures |Concat(decoded, k)| == Start(lens, k)
  {
    if k > 0 {
      ConcatLength(decoded, lens, k - 1);
    }
  }

  /** A block's bytes sit at its start in every longer prefix of the stream. */
  lemma {:induction false} BlockInStream(decoded: seq<seq<Byte>>, lens: seq<nat>, b: nat, k: nat)
    requires Lengths(decoded, lens) && b < k <= |lens|
    ensures Start(lens, b) + lens[b] <= |Concat(decoded, k)|
    ensures Concat(decoded, k)[Start(lens, b)..Start(lens, b) + lens[b]] == decoded[b]
    decreases k
  {
    ConcatLength(decoded, lens, k);
    ConcatLength(decoded, lens, k - 1);
    StartGrows(lens, b + 1, k);
    if b < k - 1 {
      StartGrows(lens, b + 1, k - 1);
      BlockInStream(decoded, lens, b, k - 1);
      PrefixSlice(Concat(decoded, k - 1), decoded[k - 1], Start(lens, b), Start(lens, b) + lens[b]);
    }
  }

  lemma PrefixSlice(x: seq<Byte>, y: seq<Byte>, i: nat, j: nat)
    requires i <= j <= |x|
    ensures (x + y)[i..j] == x[i..j]
  {
  }

  // ---------------------------------------------------------------------------------------------
  // Block spans

  /** The document position `slice` names in the stream. */
  function Position(lens: seq<nat>, slice: Slice): nat
    requires slice.firstBlock <= |lens|
  {
    Start(lens, slice.firstBlock) + slice.blockOffset
  }

  /**
   A document of `len` bytes lies at `slice`: it starts strictly inside its first block, ends within
   the stream, and no block is empty.
   */
  ghost predicate Placed(lens: seq<nat>, slice: Slice, len: nat) {
    if len == 0 then slice == Slice(0, 0)
    else
      && slice.firstBlock < |lens| && slice.blockOffset < lens[slice.firstBlock]
      && Position(lens, slice) + len <= Start(lens, |lens|)
  }

  ghost predicate NoEmptyBlock(lens: seq<nat>) {
    forall k :: 0 <= k < |lens| ==> lens[k] > 0
  }

  /** The blocks a document touches, as a half-open range of block IDs. */
  method BlockSpan(lens: seq<nat>, slice: Slice, len: nat) returns (r: Result<(nat, nat)>)
    ensures NoEmptyBlock(lens) ==> (r.Ok? <==> Placed(lens, slice, len))
    ensures r.Ok? && len == 0 ==> r.value == (0, 0)
    ensures r.Ok? && len > 0 ==>
              && r.value.0 == slice.firstBlock < r.value.1 <= |lens|
              && Start(lens, r.value.1 - 1) < Position(lens, slice) + len <= Start(lens, r.value.1)
  {
    if len == 0 {
      return if slice == Slice(0, 0) then Ok((0, 0)) else Err;
    }
    var blockId, offset, remaining := slice.firstBlock, slice.blockOffset, len;
    while remaining > 0
      invariant slice.firstBlock <= blockId && remaining <= len
      invariant blockId == slice.firstBlock ==> offset == slice.blockOffset && remaining == len
      invariant blockId > slice.firstBlock ==>
                  && offset == 0 && slice.firstBlock < blockId <= |lens| && slice.blockOffset < lens[slice.firstBlock]
                  && Start(lens, blockId - 1) < Position(lens, slice) + len
                  && (if remaining > 0 then Start(lens, blockId) + remaining == Position(lens, slice) + len
                      else Position(lens, slice) + len <= Start(lens, blockId))
      decreases remaining
    {
      if blockId >= |lens| {
        assert NoEmptyBlock(lens) ==> !Placed(lens, slice, len) by { if blockId > slice.firstBlock { StartGrows(lens, blockId, |lens|); } }
        return Err;
      }
      if lens[blockId] <= offset {
        return Err;
      }
      var available := lens[blockId] - offset;
      remaining := remaining - if remaining < available then remaining else available;
      blockId := blockId + 1;
      offset := 0;
    }
    StartGrows(lens, blockId, |lens|);
    return Ok((slice.firstBlock, blockId));
  }

  // ---------------------------------------------------------------------------------------------
  // Document parts

  /** The parts tile the first `upTo` bytes of the document, part `i` lying in block `firstBlock + i`. */
  ghost predicate Tiles(lens: seq<nat>, slice: Slice, parts: seq<DocumentBlock>, upTo: nat)
    decreases |parts|
  {
    if parts == [] then upTo == 0
    else
      var last := parts[|parts| - 1];
      && PartOk(lens, slice, last, slice.firstBlock + |parts| - 1) && last.start + last.len == upTo
      && Tiles(lens, slice, parts[..|parts| - 1], last.start)
  }

  ghost predicate PartOk(lens: seq<nat>, slice: Slice, part: DocumentBlock, id: nat) {
    && part.blockId == id < |lens| && slice.firstBlock <= |lens|
    && part.offset + part.len <= lens[id]
    && Start(lens, id) + part.offset == Position(lens, slice) + part.start
  }

  lemma TilesGrow(lens: seq<nat>, slice: Slice, parts: seq<DocumentBlock>, part: DocumentBlock)
    requires Tiles(lens, slice, parts, part.start) && PartOk(lens, slice, part, slice.firstBlock + |parts|)
    ensures Tiles(lens, slice, parts + [part], part.start + part.len)
  {
    assert (parts + [part])[..|parts|] == parts;
  }

  /** The parts of a document: where each of its blocks' share of the bytes lies. */
  method DocumentBlocks(lens: seq<nat>, slice: Slice, len: nat) returns (r: Result<seq<DocumentBlock>>)
    requires NoEmptyBlock(lens)
    ensures r.Ok? <==> Placed(lens, slice, len)
    ensures r.Ok? ==> Tiles(lens, slice, r.value, len)
  {
    var span := BlockSpan(lens, slice, len);
    if span.Err? {
      return Err;
    }
    var parts: seq<DocumentBlock> := [];
    var remaining, start, offset, blockId := len, 0, slice.blockOffset, span.value.0;
    hide *;
    NoParts(lens, slice);
    assert Cursor(lens, slice, len, span.value, blockId, start, offset) by { CursorStarts(lens, slice, len, span.value); }
    while blockId < span.value.1
      invariant Tiles(lens, slice, parts, start) && remaining + start == len
      invariant blockId == slice.firstBlock + |parts| || span.value == (0, 0)
      invariant Cursor(lens, slice, len, span.value, blockId, start, offset)
    {
      CursorStep(lens, slice, len, span.value, blockId, start, offset);
      var available := lens[blockId] - offset;
      var take := if remaining < available then remaining else available;
      var part := DocumentBlock(blockId, start, offset, take);
      TilesGrow(lens, slice, parts, part);
      parts := parts + [part];
      remaining := remaining - take;
      start := start + take;
      offset := 0;
      blockId := blockId + 1;
    }
    CursorEnds(lens, slice, len, span.value, blockId, start, offset);
    return Ok(parts);
  }

  /** `start` bytes of the document precede byte `offset` of block `blockId`. */
  ghost predicate Cursor(lens: seq<nat>, slice: Slice, len: nat, span: (nat, nat), blockId: nat, start: nat, offset: nat) {
    if len == 0 then span == (0, 0) && start == 0 && slice == Slice(0, 0)
    else
      && slice.firstBlock == span.0 <= blockId <= span.1 <= |lens| && span.0 < span.1
      && Start(lens, span.1 - 1) < Position(lens, slice) + len <= Start(lens, span.1)
      && (if blockId == span.1 then start == len
          else offset < lens[blockId] && Start(lens, blockId) + offset == Position(lens, slice) + start)
  }

  lemma CursorStarts(lens: seq<nat>, slice: Slice, len: nat, span: (nat, nat))
    requires Placed(lens, slice, len)
    requires len == 0 ==> span == (0, 0)
    requires len > 0 ==> slice.firstBlock == span.0 < span.1 <= |lens|
    requires len > 0 ==> Start(lens, span.1 - 1) < Position(lens, slice) + len <= Start(lens, span.1)
    ensures Cursor(lens, slice, len, span, span.0, 0, slice.blockOffset)
  {
  }

  lemma CursorStep(lens: seq<nat>, slice: Slice, len: nat, span: (nat, nat), blockId: nat, start: nat, offset: nat)
    requires NoEmptyBlock(lens) && Cursor(lens, slice, len, span, blockId, start, offset) && blockId < span.1 && start <= len
    ensures blockId < |lens| && offset < lens[blockId] && len > 0
    ensures var available := lens[blockId] - offset;
      var take := if len - start < available then len - start else available;
      && PartOk(lens, slice, DocumentBlock(blockId, start, offset, take), blockId)
      && Cursor(lens, slice, len, span, blockId + 1, start + take, 0)
  {
    LastBlockEnds(lens, slice, len, span.1, blockId);
  }

  lemma CursorEnds(lens: seq<nat>, slice: Slice, len: nat, span: (nat, nat), blockId: nat, start: nat, offset: nat)
    requires Cursor(lens, slice, len, span, blockId, start, offset) && blockId >= span.1
    ensures start == len
  {
  }

  lemma NoParts(lens: seq<nat>, slice: Slice)
    ensures Tiles(lens, slice, [], 0)
  {
  }

  lemma LastBlockEnds(lens: seq<nat>, slice: Slice, len: nat, end: nat, blockId: nat)
    requires slice.firstBlock <= blockId < end <= |lens|
    requires Start(lens, end - 1) < Position(lens, slice) + len <= Start(lens, end)
    ensures blockId + 1 < end ==> Start(lens, blockId + 1) < Position(lens, slice) + len
    ensures blockId + 1 == end ==> Position(lens, slice) + len <= Start(lens, blockId + 1)
  {
    if blockId + 1 < end {
      StartGrows(lens, blockId + 1, end - 1);
    }
  }

  // ---------------------------------------------------------------------------------------------
  // Reading a range

  predicate Overlaps(part: DocumentBlock, from: nat, to: nat) {
    part.start + part.len > from && part.start < to
  }

  function Matching(parts: seq<DocumentBlock>, from: nat, to: nat): (r: seq<DocumentBlock>)
    ensures forall k :: k in r ==> k in parts && Overlaps(k, from, to)
    ensures forall k :: k in parts && Overlaps(k, from, to) ==> k in r
  {
    if parts == [] then []
    else
      assert parts == parts[..|parts| - 1] + [parts[|parts| - 1]];
      Matching(parts[..|parts| - 1], from, to) +
      (if Overlaps(parts[|parts| - 1], from, to) then [parts[|parts| - 1]] else [])
  }

  /** What a part contributes to the range `[from, to)`, given its block's bytes. */
  function Piece(block: seq<Byte>, part: DocumentBlock, from: nat, to: nat): (r: seq<Byte>)
    requires part.offset + part.len <= |block| && Overlaps(part, from, to) && from < to
  {
    var first := if from > part.start then from else part.start;
    var end := if to < part.start + part.len then to else part.start + part.len;
    block[part.offset + first - part.start..part.offset + end - part.start]
  }

  ghost predicate Readable(decoded: seq<seq<Byte>>, part: DocumentBlock) {
    part.blockId < |decoded| && part.offset + part.len <= |decoded[part.blockId]|
  }

  function Pieces(decoded: seq<seq<Byte>>, parts: seq<DocumentBlock>, from: nat, to: nat): seq<Byte>
    requires from < to
    requires forall k :: k in parts ==> Readable(decoded, k) && Overlaps(k, from, to)
  {
    if parts == [] then []
    else
      var last := parts[|parts| - 1];
      assert last in parts && Readable(decoded, last);
      Pieces(decoded, parts[..|parts| - 1], from, to) + Piece(decoded[last.blockId], last, from, to)
  }

  /** A document's bytes, cut out of the decoded stream. */
  function DocumentBytes(decoded: seq<seq<Byte>>, lens: seq<nat>, slice: Slice, len: nat): seq<Byte>
    requires slice.firstBlock <= |lens| && Position(lens, slice) + len <= |Stream(decoded)|
  {
    Stream(decoded)[Position(lens, slice)..Position(lens, slice) + len]
  }

  ghost predicate Holds(decoded: seq<seq<Byte>>, lens: seq<nat>, slice: Slice, len: nat) {
    && Lengths(decoded, lens) && slice.firstBlock <= |lens|
    && Position(lens, slice) + len <= |Stream(decoded)|
  }

  /** A part's piece is the document's bytes at the same place. */
  lemma PieceIsDocument(decoded: seq<seq<Byte>>, lens: seq<nat>, slice: Slice, len: nat, part: DocumentBlock, a: nat, b: nat)
    requires Holds(decoded, lens, slice, len) && PartOk(lens, slice, part, part.blockId) && part.start + part.len <= len
    requires a <= b <= part.len
    ensures part.blockId < |decoded| && part.offset + b <= |decoded[part.blockId]|
    ensures decoded[part.blockId][part.offset + a..part.offset + b] ==
            DocumentBytes(decoded, lens, slice, len)[part.start + a..part.start + b]
  {
    var k, pos := part.blockId, Position(lens, slice);
    BlockInStream(decoded, lens, k, |lens|);
    var at := Start(lens, k);
    hide Start, Concat;
    SliceOfSlice(Stream(decoded), at, at + lens[k], part.offset + a, part.offset + b);
    SliceOfSlice(Stream(decoded), pos, pos + len, part.start + a, part.start + b);
  }

  lemma {:induction false} TilesReadable(decoded: seq<seq<Byte>>, lens: seq<nat>, slice: Slice, parts: seq<DocumentBlock>, len: nat, i: nat)
    requires Lengths(decoded, lens) && Tiles(lens, slice, parts, len) && i < |parts|
    ensures PartOk(lens, slice, parts[i], slice.firstBlock + i) && Readable(decoded, parts[i]) && parts[i].start + parts[i].len <= len
    decreases |parts|
  {
    var n := |parts| - 1;
    if i < n {
      TilesReadable(decoded, lens, slice, parts[..n], parts[n].start, i);
    }
  }

  lemma AllReadable(decoded: seq<seq<Byte>>, lens: seq<nat>, slice: Slice, parts: seq<DocumentBlock>, len: nat)
    requires Lengths(decoded, lens) && Tiles(lens, slice, parts, len)
    ensures forall k :: k in parts ==> Readable(decoded, k) && k.blockId < |decoded|
  {
    forall k | k in parts ensures Readable(decoded, k) {
      var i: nat :| i < |parts| && parts[i] == k;
      TilesReadable(decoded, lens, slice, parts, len, i);
    }
  }

  function Clip(from: nat, to: nat, upTo: nat): nat {
    if upTo <= from then from else if upTo < to then upTo else to
  }

  /** The pieces of the overlapping parts add up to the requested bytes. */
  lemma {:induction false} PiecesAddUp(decoded: seq<seq<Byte>>, lens: seq<nat>, slice: Slice, parts: seq<DocumentBlock>,
                                       len: nat, upTo: nat, from: nat, to: nat)
    requires Holds(decoded, lens, slice, len) && Tiles(lens, slice, parts, upTo) && upTo <= len && from < to
    requires forall k :: k in Matching(parts, from, to) ==> Readable(decoded, k)
    ensures from <= len ==>
              Pieces(decoded, Matching(parts, from, to), from, to) == DocumentBytes(decoded, lens, slice, len)[from..Clip(from, to, upTo)]
    ensures from > len ==> Pieces(decoded, Matching(parts, from, to), from, to) == []
    decreases |parts|
  {
    hide DocumentBytes, Holds, PartOk, Readable, Matching, Pieces, Overlaps, Piece, Clip;
    HoldsLength(decoded, lens, slice, len);
    if parts == [] {
      NothingMatches(decoded, from, to, len);
    } else {
      var n, last := |parts| - 1, parts[|parts| - 1];
      PartEnds(lens, slice, parts, upTo);
      MatchingLast(parts, from, to);
      PiecesAddUp(decoded, lens, slice, parts[..n], len, last.start, from, to);
      if Overlaps(last, from, to) {
        PiecesLast(decoded, Matching(parts[..n], from, to), last, from, to);
        LastPiece(decoded, lens, slice, len, last, slice.firstBlock + n, from, to);
      } else {
        NoOverlap(last, from, to);
      }
    }
  }

  lemma HoldsLength(decoded: seq<seq<Byte>>, lens: seq<nat>, slice: Slice, len: nat)
    requires Holds(decoded, lens, slice, len)
    ensures slice.firstBlock <= |lens| && Position(lens, slice) + len <= |Stream(decoded)|
    ensures |DocumentBytes(decoded, lens, slice, len)| == len
  {
  }

  lemma PartEnds(lens: seq<nat>, slice: Slice, parts: seq<DocumentBlock>, upTo: nat)
    requires Tiles(lens, slice, parts, upTo) && parts != []
    ensures var last := parts[|parts| - 1];
      && PartOk(lens, slice, last, slice.firstBlock + |parts| - 1) && last.start + last.len == upTo
      && Tiles(lens, slice, parts[..|parts| - 1], last.start)
  {
  }

  lemma NothingMatches(decoded: seq<seq<Byte>>, from: nat, to: nat, len: nat)
    requires from < to
    ensures Matching([], from, to) == [] && Pieces(decoded, [], from, to) == [] && Clip(from, to, 0) == from
  {
  }

  lemma NoOverlap(last: DocumentBlock, from: nat, to: nat)
    requires !Overlaps(last, from, to) && from < to
    ensures Clip(from, to, last.start) == Clip(from, to, last.start + last.len)
  {
  }

  lemma MatchingLast(parts: seq<DocumentBlock>, from: nat, to: nat)
    requires parts != []
    ensures var last, front := parts[|parts| - 1], Matching(parts[..|parts| - 1], from, to);
      Matching(parts, from, to) == if Overlaps(last, from, to) then front + [last] else front
  {
  }

  lemma PiecesLast(decoded: seq<seq<Byte>>, parts: seq<DocumentBlock>, last: DocumentBlock, from: nat, to: nat)
    requires from < to && forall k :: k in parts ==> Readable(decoded, k) && Overlaps(k, from, to)
    requires Readable(decoded, last) && Overlaps(last, from, to)
    ensures forall k :: k in parts + [last] ==> k in parts || k == last
    ensures Pieces(decoded, parts + [last], from, to) ==
            Pieces(decoded, parts, from, to) + Piece(decoded[last.blockId], last, from, to)
  {
    assert (parts + [last])[..|parts|] == parts;
    assert (parts + [last])[|parts|] == last;
  }

  lemma SlicesMeet(x: seq<Byte>, i: nat, j: nat, k: nat)
    requires i <= j <= k <= |x|
    ensures x[i..j] + x[j..k] == x[i..k]
  {
  }

  /** Appending the last overlapping piece extends the slice of the document. */
  lemma LastPiece(decoded: seq<seq<Byte>>, lens: seq<nat>, slice: Slice, len: nat, last: DocumentBlock, id: nat, from: nat, to: nat)
    requires Holds(decoded, lens, slice, len) && PartOk(lens, slice, last, id) && last.start + last.len <= len
    requires Overlaps(last, from, to) && from < to && Readable(decoded, last)
    ensures from <= len
    ensures var doc := DocumentBytes(decoded, lens, slice, len);
      doc[from..Clip(from, to, last.start)] + Piece(decoded[last.blockId], last, from, to) ==
      doc[from..Clip(from, to, last.start + last.len)]
  {
    var end := Clip(from, to, last.start + last.len);
    PieceAsSlice(decoded, lens, slice, len, last, from, to);
    HoldsLength(decoded, lens, slice, len);
    hide DocumentBytes, PartOk, Holds, Piece;
    SlicesMeet(DocumentBytes(decoded, lens, slice, len), from, Clip(from, to, last.start), end);
  }

  lemma PieceAsSlice(decoded: seq<seq<Byte>>, lens: seq<nat>, slice: Slice, len: nat, last: DocumentBlock, from: nat, to: nat)
    requires Holds(decoded, lens, slice, len) && PartOk(lens, slice, last, last.blockId) && last.start + last.len <= len
    requires Overlaps(last, from, to) && from < to && Readable(decoded, last)
    ensures from <= Clip(from, to, last.start) <= Clip(from, to, last.start + last.len) <= len
    ensures Piece(decoded[last.blockId], last, from, to) ==
            DocumentBytes(decoded, lens, slice, len)[Clip(from, to, last.start)..Clip(from, to, last.start + last.len)]
  {
    var first, end := Clip(from, to, last.start), Clip(from, to, last.start + last.len);
    assert last.start <= first <= end <= last.start + last.len;
    PieceIsDocument(decoded, lens, slice, len, last, first - last.start, end - last.start);
    hide DocumentBytes, PartOk, Holds;
  }

  /**
   `read_range`: the blocks the range touches are loaded, and only those; the bytes come back exactly
   as they are in the document, whether one part covers the range or several.
   */
  method ReadRange(decoded: seq<seq<Byte>>, lens: seq<nat>, parts: seq<DocumentBlock>, from: nat, to: nat,
                   ghost slice: Slice, ghost len: nat)
    returns (r: Result<seq<Byte>>)
    requires Holds(decoded, lens, slice, len) && Tiles(lens, slice, parts, len)
    ensures from <= to <= len ==> r == Ok(DocumentBytes(decoded, lens, slice, len)[from..to])
    ensures from > to || (from < to && to > len) ==> r == Err
  {
    LengthOf(decoded, lens, slice, len);
    hide *;
    if from > to {
      return Err;
    }
    if from == to {
      assert from <= len ==> DocumentBytes(decoded, lens, slice, len)[from..to] == [];
      return Ok([]);
    }
    AllReadable(decoded, lens, slice, parts, len);
    var loaded := LoadBlocks(decoded, parts, from, to);
    var matching := Matching(parts, from, to);
    PiecesAddUp(decoded, lens, slice, parts, len, len, from, to);
    ClipWhole(from, to, len);
    var output := Assemble(decoded, loaded, matching, from, to);
    return if |output| == to - from then Ok(output) else Err;
  }

  lemma LengthOf(decoded: seq<seq<Byte>>, lens: seq<nat>, slice: Slice, len: nat)
    requires Holds(decoded, lens, slice, len)
    ensures |DocumentBytes(decoded, lens, slice, len)| == len && Lengths(decoded, lens)
    ensures slice.firstBlock <= |lens| && Position(lens, slice) + len <= |Stream(decoded)|
  {
  }

  lemma ClipWhole(from: nat, to: nat, len: nat)
    requires from < to
    ensures to <= len ==> Clip(from, to, len) == to
    ensures to > len && from <= len ==> Clip(from, to, len) < to && Clip(from, to, len) <= len
    ensures from <= Clip(from, to, len)
  {
  }

  /** Exactly the blocks that the range touches. */
  method LoadBlocks(decoded: seq<seq<Byte>>, parts: seq<DocumentBlock>, from: nat, to: nat) returns (loaded: map<nat, seq<Byte>>)
    requires forall k :: k in parts ==> k.blockId < |decoded|
    ensures forall b :: b in loaded <==> exists k :: k in parts && Overlaps(k, from, to) && k.blockId == b
    ensures forall b :: b in loaded ==> b < |decoded| && loaded[b] == decoded[b]
  {
    var ids := set k | k in parts && Overlaps(k, from, to) :: k.blockId;
    loaded := map b | b in ids :: decoded[b];
  }

  /** Copy each part's piece from the loaded blocks. */
  method Assemble(ghost decoded: seq<seq<Byte>>, loaded: map<nat, seq<Byte>>, matching: seq<DocumentBlock>, from: nat, to: nat)
    returns (output: seq<Byte>)
    requires from < to && forall k :: k in matching ==> Readable(decoded, k) && Overlaps(k, from, to)
    requires forall k :: k in matching ==> k.blockId in loaded && k.blockId < |decoded| && loaded[k.blockId] == decoded[k.blockId]
    ensures output == Pieces(decoded, matching, from, to)
  {
    if |matching| == 1 {
      var part := matching[0];
      assert part in matching;
      assert matching == [] + [part];
      PiecesLast(decoded, [], part, from, to);
      return Piece(loaded[part.blockId], part, from, to);
    }
    output := [];
    for i := 0 to |matching|
      invariant output == Pieces(decoded, matching[..i], from, to)
    {
      var part := matching[i];
      assert part in matching;
      assert matching[..i + 1] == matching[..i] + [part];
      PiecesLast(decoded, matching[..i], part, from, to);
      output := output + Piece(loaded[part.blockId], part, from, to);
    }
    assert matching[..|matching|] == matching;
  }
}
