/**
 The entries of a sparse dictionary block (`for_each_entry` and the encoding half of
 `SparseTableWriter::insert` in crates/index/src/sparse_table.rs).
 */
module SparseEntries {
  import opened Wrappers
  import opened Slices
  import opened Bits
  import opened Varints

  const OFFSET_LIMIT: nat := 0x100_0000_0000
  const COUNT_LIMIT: nat := 0x100_0000

  /** A hash with its postings: a single document, or a list of `len` bytes. */
  datatype Term = Term(hash: nat, offset: nat, count: nat, len: Option<nat>)

  ghost predicate ValueOk(t: Term) {
    && t.offset < OFFSET_LIMIT && t.count < COUNT_LIMIT && (t.count == 1 <==> t.len.None?)
    && (t.len.Some? ==> 0 < t.len.value < U64_LIMIT)
  }

  ghost predicate TermsOk(ts: seq<Term>) {
    && (forall i :: 0 <= i < |ts| ==> ValueOk(ts[i]) && ts[i].hash < U64_LIMIT)
    && (forall i, j :: 0 <= i < j < |ts| ==> ts[i].hash < ts[j].hash)
  }

  // ---------------------------------------------------------------------------------------------
  // Encoding

  /** `k` bytes of `n`, most significant first. */
  function BigEndian(n: nat, k: nat): (r: seq<nat>)
    ensures |r| == k && Below(r, 256)
    decreases k
  {
    if k == 0 then [] else BigEndian(n / 256, k - 1) + [n % 256]
  }

  function FromBigEndian(bytes: seq<nat>): nat {
    if bytes == [] then 0 else FromBigEndian(bytes[..|bytes| - 1]) * 256 + bytes[|bytes| - 1]
  }

  lemma {:induction false} BigEndianRoundTrip(n: nat, k: nat)
    requires n < Pow2(8 * k)
    ensures FromBigEndian(BigEndian(n, k)) == n
    decreases k
  {
    if k > 0 {
      Pow2Is();
      Pow2Add(8 * (k - 1), 8);
      assert 8 * (k - 1) + 8 == 8 * k;
      BigEndianRoundTrip(n / 256, k - 1);
      assert BigEndian(n, k)[..k - 1] == BigEndian(n / 256, k - 1);
    }
  }

  /** One tag varint whose low bit marks a single document; otherwise count, offset and length. */
  function ValueBytes(t: Term): (r: seq<nat>)
    requires t.count != 1 ==> t.len.Some?
    ensures |r| >= 1 && Below(r, 256)
  {
    if t.count == 1 then Varint(t.offset * 2 + 1)
    else Varint(t.count * 2) + Varint(t.offset) + Varint(t.len.value)
  }

  /** The first hash of a block is raw, the others are distances to the previous one. */
  function HashBytes(previous: Option<nat>, hash: nat): (r: seq<nat>)
    requires previous.Some? ==> previous.value < hash
    ensures |r| >= 1 && Below(r, 256)
  {
    match previous
    case None => BigEndian(hash, 8)
    case Some(last) => Varint(hash - last)
  }

  function LastHash(ts: seq<Term>): Option<nat> {
    if ts == [] then None else Some(ts[|ts| - 1].hash)
  }

  function BlockBytes(ts: seq<Term>): (r: seq<nat>)
    requires TermsOk(ts)
    ensures Below(r, 256) && (ts == [] <==> r == [])
  {
    if ts == [] then []
    else
      var front, last := ts[..|ts| - 1], ts[|ts| - 1];
      BlockBytes(front) + (HashBytes(LastHash(front), last.hash) + ValueBytes(last))
  }

  lemma BlockBytesNext(ts: seq<Term>, t: Term)
    requires TermsOk(ts + [t])
    ensures TermsOk(ts) && (ts != [] ==> ts[|ts| - 1].hash < t.hash) && ValueOk(t)
    ensures BlockBytes(ts + [t]) == BlockBytes(ts) + (HashBytes(LastHash(ts), t.hash) + ValueBytes(t))
  {
    var all := ts + [t];
    assert all[..|ts|] == ts && all[|ts|] == t;
    assert forall i :: 0 <= i < |ts| ==> all[i] == ts[i];
  }

  lemma {:induction false} BlockSizes(ts: seq<Term>)
    requires TermsOk(ts) && ts != []
    ensures |BlockBytes(ts)| > 8
  {
    var n := |ts| - 1;
    SplitLast(ts);
    BlockBytesNext(ts[..n], ts[n]);
    hide BlockBytes, ValueBytes, TermsOk;
    if n > 0 {
      BlockSizes(ts[..n]);
    }
  }

  /** A value takes at most 20 bytes, a hash distance at most 10. */
  lemma EntrySize(t: Term, previous: Option<nat>)
    requires ValueOk(t) && t.hash < U64_LIMIT && (previous.Some? ==> previous.value < t.hash)
    ensures |ValueBytes(t)| <= 20 && |HashBytes(previous, t.hash)| <= 10
  {
    Powers();
    hide Pow2, Varint;
    if t.count == 1 {
      VarintLen(t.offset * 2 + 1, 6);
    } else {
      VarintLen(t.count * 2, 4);
      VarintLen(t.offset, 6);
      VarintLen(t.len.value, 10);
    }
    if previous.Some? {
      VarintLen(t.hash - previous.value, 10);
    }
  }

  lemma Powers()
    ensures Pow2(7 * 4) == 0x1000_0000 && Pow2(7 * 6) == 0x400_0000_0000 && Pow2(7 * 10) >= U64_LIMIT && Pow2(8 * 8) == U64_LIMIT
  {
    Pow2Is();
    assert Pow2(2) == 4 && Pow2(4) == 16;
    Pow2Add(32, 32);
    Pow2Add(40, 2);
    assert Pow2(28) * 16 == Pow2(32) by { Pow2Add(28, 4); }
    Pow2Grows(64, 70);
  }

  // ---------------------------------------------------------------------------------------------
  // Decoding

  /** The tag varint: the document ID or the count, above a bit that tells them apart. */
  function Tag(t: Term): nat {
    if t.count == 1 then t.offset * 2 + 1 else t.count * 2
  }

  lemma TagBits(t: Term)
    ensures Tag(t) % 2 == (if t.count == 1 then 1 else 0) && Tag(t) / 2 == if t.count == 1 then t.offset else t.count
  {
  }

  /** The varints of a value lie one after another. */
  ghost predicate ListAhead(block: seq<nat>, at: nat, t: Term, stop: nat) {
    && t.len.Some? && Encoded(block, at, t.offset) && Encoded(block, at + |Varint(t.offset)|, t.len.value)
    && stop == at + |Varint(t.offset)| + |Varint(t.len.value)|
  }

  lemma ValueParts(block: seq<nat>, cursor: nat, t: Term)
    requires ValueOk(t) && At(block, cursor, ValueBytes(t))
    ensures Encoded(block, cursor, Tag(t))
    ensures t.count == 1 ==> |ValueBytes(t)| == |Varint(Tag(t))|
    ensures t.count != 1 ==> ListAhead(block, cursor + |Varint(Tag(t))|, t, cursor + |ValueBytes(t)|)
  {
    hide Varint, At;
    if t.count != 1 {
      AtJoin(block, cursor, Varint(t.count * 2) + Varint(t.offset), Varint(t.len.value));
      AtJoin(block, cursor, Varint(t.count * 2), Varint(t.offset));
    }
  }

  /** Offset and length of a value with more than one document. */
  method ReadList(block: seq<nat>, hash: nat, count: nat, at: nat, ghost ahead: bool, ghost t: Term, ghost stop: nat)
    returns (r: Result<(Term, nat)>)
    requires Below(block, 256) && at <= |block| && count != 1
    requires ahead ==> ValueOk(t) && t.hash == hash && t.count == count && ListAhead(block, at, t, stop)
    ensures r.Ok? ==> r.value.0.hash == hash && ValueOk(r.value.0) && at < r.value.1 <= |block|
    ensures ahead ==> r == Ok((t, stop))
  {
    hide Varint, At, Encoded, Below;
    var offset := ReadVarint(block, at);
    if offset.Err? {
      return Err;
    }
    var len := ReadVarint(block, offset.value.1);
    if len.Err? {
      return Err;
    }
    if len.value.0 == 0 {
      return Err;
    }
    if offset.value.0 >= OFFSET_LIMIT || count >= COUNT_LIMIT {
      return Err;
    }
    return Ok((Term(hash, offset.value.0, count, Some(len.value.0)), len.value.1));
  }

  /** One value: canonical, within the packed limits, with a positive length; `t` is what may lie ahead. */
  method ReadValue(block: seq<nat>, hash: nat, cursor: nat, ghost ahead: bool, ghost t: Term) returns (r: Result<(Term, nat)>)
    requires Below(block, 256) && (ahead ==> ValueOk(t) && t.hash == hash && At(block, cursor, ValueBytes(t)))
    ensures r.Ok? ==> r.value.0.hash == hash && ValueOk(r.value.0) && cursor < r.value.1 <= |block|
    ensures ahead ==> r == Ok((t, cursor + |ValueBytes(t)|))
  {
    TagBits(t);
    hide Varint, At, ValueBytes, Encoded, Below, Tag, ListAhead;
    if ahead {
      ValueParts(block, cursor, t);
    }
    var tag := ReadVarint(block, cursor);
    if tag.Err? {
      return Err;
    }
    var (n, at) := tag.value;
    if n % 2 == 1 {
      if n / 2 >= OFFSET_LIMIT {
        return Err;
      }
      return Ok((Term(hash, n / 2, 1, None), at));
    }
    if n / 2 == 1 {
      return Err;
    }
    r := ReadList(block, hash, n / 2, at, ahead, t, cursor + if ahead then |ValueBytes(t)| else 0);
  }

  // ---------------------------------------------------------------------------------------------
  // Replaying a block

  ghost predicate IsBlockOf(block: seq<nat>, ts: seq<Term>) {
    TermsOk(ts) && ts != [] && BlockBytes(ts) == block
  }

  lemma {:induction false} PrefixOk(ts: seq<Term>, n: nat)
    requires TermsOk(ts) && n <= |ts|
    ensures TermsOk(ts[..n])
  {
  }

  lemma {:induction false} BlockPrefix(ts: seq<Term>, n: nat)
    requires TermsOk(ts) && n <= |ts|
    ensures TermsOk(ts[..n]) && |BlockBytes(ts[..n])| <= |BlockBytes(ts)|
    ensures BlockBytes(ts)[..|BlockBytes(ts[..n])|] == BlockBytes(ts[..n])
    decreases |ts|
  {
    hide *;
    PrefixOk(ts, n);
    if n == |ts| {
      assert ts[..n] == ts;
      assert BlockBytes(ts)[..|BlockBytes(ts)|] == BlockBytes(ts);
    } else {
      var m := |ts| - 1;
      SplitLast(ts);
      BlockBytesNext(ts[..m], ts[m]);
      BlockPrefix(ts[..m], n);
      EntryBytesIs(ts, m);
      assert ts[..m][..n] == ts[..n];
      PrefixOfJoin(BlockBytes(ts[..m]), HashBytes(LastHash(ts[..m]), ts[m].hash) + ValueBytes(ts[m]), |BlockBytes(ts[..n])|);
    }
  }

  lemma PrefixOfJoin(x: seq<nat>, y: seq<nat>, k: nat)
    requires k <= |x|
    ensures k <= |x + y| && (x + y)[..k] == x[..k]
  {
  }

  lemma AtInPrefix(x: seq<nat>, p: seq<nat>, e: seq<nat>)
    requires |p + e| <= |x| && x[..|p + e|] == p + e
    ensures At(x, |p|, e)
  {
    assert x[|p|..|p| + |e|] == x[..|p + e|][|p|..];
  }

  function EntryBytes(ts: seq<Term>, n: nat): seq<nat>
    requires TermsOk(ts) && n < |ts|
  {
    HashBytes(LastHash(ts[..n]), ts[n].hash) + ValueBytes(ts[n])
  }

  /** Entry `n` lies right behind the first `n` entries. */
  lemma EntryAhead(ts: seq<Term>, n: nat)
    requires TermsOk(ts) && n < |ts|
    ensures TermsOk(ts[..n]) && TermsOk(ts[..n + 1])
    ensures At(BlockBytes(ts), |BlockBytes(ts[..n])|, EntryBytes(ts, n))
    ensures |BlockBytes(ts[..n + 1])| == |BlockBytes(ts[..n])| + |EntryBytes(ts, n)|
  {
    hide *;
    PrefixOk(ts, n);
    BlockPrefix(ts, n + 1);
    TakeNext(ts, n);
    BlockBytesNext(ts[..n], ts[n]);
    EntryBytesIs(ts, n);
    AtInPrefix(BlockBytes(ts), BlockBytes(ts[..n]), EntryBytes(ts, n));
  }

  lemma EntryBytesIs(ts: seq<Term>, n: nat)
    requires TermsOk(ts) && n < |ts|
    ensures ValueOk(ts[n]) && (n > 0 ==> LastHash(ts[..n]) == Some(ts[n - 1].hash) && ts[n - 1].hash < ts[n].hash)
    ensures n == 0 ==> LastHash(ts[..n]) == None
    ensures EntryBytes(ts, n) == HashBytes(LastHash(ts[..n]), ts[n].hash) + ValueBytes(ts[n]) && ts[n].hash < U64_LIMIT
  {
  }

  /** The replay has produced the first entries and stands right behind them. */
  ghost predicate Replays(ts: seq<Term>, cursor: nat, out: seq<Term>) {
    |out| <= |ts| && out == ts[..|out|] && TermsOk(out) && cursor == |BlockBytes(out)|
  }

  /** At `cursor` lies an entry for `t` after the hash `previous`; it ends at `stop`. */
  ghost predicate EntryFollows(block: seq<nat>, previous: Option<nat>, t: Term, cursor: nat, stop: nat) {
    && ValueOk(t) && t.hash < U64_LIMIT && (previous.Some? ==> previous.value < t.hash)
    && At(block, cursor, HashBytes(previous, t.hash))
    && At(block, cursor + |HashBytes(previous, t.hash)|, ValueBytes(t))
    && stop == cursor + |HashBytes(previous, t.hash)| + |ValueBytes(t)|
  }

  /** What lies ahead of a replay that is not at its end. */
  lemma NextEntry(block: seq<nat>, ts: seq<Term>, cursor: nat, out: seq<Term>) returns (stop: nat)
    requires IsBlockOf(block, ts) && Replays(ts, cursor, out) && |out| < |ts|
    ensures EntryFollows(block, LastHash(out), ts[|out|], cursor, stop) && Replays(ts, stop, out + [ts[|out|]])
  {
    hide *;
    BlockIs(block, ts, cursor, out);
    stop := cursor + |EntryBytes(ts, |out|)|;
    NextFollows(ts, |out|);
    NextReplays(ts, |out|);
    TakeNext(ts, |out|);
  }

  lemma NextFollows(ts: seq<Term>, n: nat)
    requires TermsOk(ts) && n < |ts|
    ensures TermsOk(ts[..n])
    ensures var cursor := |BlockBytes(ts[..n])|;
      EntryFollows(BlockBytes(ts), LastHash(ts[..n]), ts[n], cursor, cursor + |EntryBytes(ts, n)|)
  {
    hide *;
    EntryAhead(ts, n);
    EntryBytesIs(ts, n);
    FollowsIs(BlockBytes(ts), LastHash(ts[..n]), ts[n], |BlockBytes(ts[..n])|);
  }

  lemma NextReplays(ts: seq<Term>, n: nat)
    requires TermsOk(ts) && n < |ts|
    ensures TermsOk(ts[..n]) && TermsOk(ts[..n + 1])
    ensures Replays(ts, |BlockBytes(ts[..n])| + |EntryBytes(ts, n)|, ts[..n + 1])
  {
    hide *;
    EntryAhead(ts, n);
    ReplayIs(ts, |BlockBytes(ts[..n + 1])|, ts[..n + 1]);
  }

  lemma FollowsIs(block: seq<nat>, previous: Option<nat>, t: Term, cursor: nat)
    requires ValueOk(t) && t.hash < U64_LIMIT && (previous.Some? ==> previous.value < t.hash)
    requires At(block, cursor, HashBytes(previous, t.hash) + ValueBytes(t))
    ensures EntryFollows(block, previous, t, cursor, cursor + |HashBytes(previous, t.hash) + ValueBytes(t)|)
  {
    hide HashBytes, ValueBytes, At;
    AtJoin(block, cursor, HashBytes(previous, t.hash), ValueBytes(t));
  }

  /** A replay is complete exactly when its cursor is at the end of the block. */
  lemma ReplayEnds(block: seq<nat>, ts: seq<Term>, cursor: nat, out: seq<Term>)
    requires IsBlockOf(block, ts) && Replays(ts, cursor, out)
    ensures |out| <= |ts| && (|out| < |ts| ==> cursor < |block|) && (|out| == |ts| ==> cursor == |block| && out == ts)
  {
    BlockIs(block, ts, cursor, out);
    hide *;
    if |out| < |ts| {
      var stop := NextEntry(block, ts, cursor, out);
      FollowsInside(block, LastHash(out), ts[|out|], cursor, stop);
    } else {
      assert ts[..|ts|] == ts;
    }
  }

  lemma FollowsInside(block: seq<nat>, previous: Option<nat>, t: Term, cursor: nat, stop: nat)
    requires EntryFollows(block, previous, t, cursor, stop)
    ensures cursor < |block|
  {
  }

  lemma BlockIs(block: seq<nat>, ts: seq<Term>, cursor: nat, out: seq<Term>)
    requires IsBlockOf(block, ts) && Replays(ts, cursor, out)
    ensures TermsOk(ts) && BlockBytes(ts) == block && TermsOk(out)
    ensures |out| <= |ts| && out == ts[..|out|] && cursor == |BlockBytes(out)|
  {
  }

  lemma ReplayIs(ts: seq<Term>, cursor: nat, out: seq<Term>)
    requires |out| <= |ts| && out == ts[..|out|] && TermsOk(out) && cursor == |BlockBytes(out)|
    ensures Replays(ts, cursor, out)
  {
  }

  lemma AtInside(block: seq<nat>, cursor: nat, x: seq<nat>)
    requires At(block, cursor, x) && |x| >= 1
    ensures cursor + |x| <= |block|
  {
  }

  /** If the block is that of `ts`, the replay is on track for it. */
  ghost predicate OnTrack(block: seq<nat>, ts: seq<Term>, cursor: nat, out: seq<Term>) {
    IsBlockOf(block, ts) ==> Replays(ts, cursor, out)
  }

  lemma DeltaAhead(block: seq<nat>, previous: nat, t: Term, cursor: nat, stop: nat)
    requires EntryFollows(block, Some(previous), t, cursor, stop)
    ensures ValueOk(t) && previous < t.hash < U64_LIMIT && Encoded(block, cursor, t.hash - previous)
    ensures At(block, cursor + |Varint(t.hash - previous)|, ValueBytes(t))
    ensures stop == cursor + |Varint(t.hash - previous)| + |ValueBytes(t)|
  {
    hide At, Varint, ValueBytes;
  }

  /** The next hash: the last one plus a positive distance. */
  method ReadHash(block: seq<nat>, cursor: nat, last: nat, ghost ahead: bool, ghost t: Term, ghost stop: nat) returns (r: Result<(nat, nat)>)
    requires Below(block, 256) && (ahead ==> EntryFollows(block, Some(last), t, cursor, stop))
    ensures r.Ok? ==> last < r.value.0 < U64_LIMIT && cursor < r.value.1 <= |block|
    ensures ahead ==> r.Ok? && r.value.0 == t.hash && At(block, r.value.1, ValueBytes(t)) && stop == r.value.1 + |ValueBytes(t)|
  {
    hide *;
    if ahead {
      DeltaAhead(block, last, t, cursor, stop);
    }
    var delta := ReadVarint(block, cursor);
    if delta.Err? {
      return Err;
    }
    var (d, at) := delta.value;
    if d == 0 {
      return Err;
    }
    if last + d >= U64_LIMIT {
      return Err;
    }
    return Ok((last + d, at));
  }

  /** One more entry after the first: the distance to the last hash, then the value. */
  method NextTerm(block: seq<nat>, cursor: nat, last: nat, ghost ahead: bool, ghost t: Term, ghost stop: nat) returns (r: Result<(Term, nat)>)
    requires Below(block, 256) && (ahead ==> EntryFollows(block, Some(last), t, cursor, stop))
    ensures r.Ok? ==> cursor < r.value.1 <= |block| && ValueOk(r.value.0) && last < r.value.0.hash < U64_LIMIT
    ensures ahead ==> r == Ok((t, stop))
  {
    hide *;
    assert ahead ==> ValueOk(t) by { if ahead { DeltaAhead(block, last, t, cursor, stop); } }
    var hash := ReadHash(block, cursor, last, ahead, t, stop);
    if hash.Err? {
      return Err;
    }
    r := ReadValue(block, hash.value.0, hash.value.1, ahead, t);
  }

  lemma TrackIs(block: seq<nat>, ts: seq<Term>, cursor: nat, out: seq<Term>)
    ensures OnTrack(block, ts, cursor, out) <==> (IsBlockOf(block, ts) ==> Replays(ts, cursor, out))
  {
  }

  lemma StaysOnTrack(block: seq<nat>, ts: seq<Term>, cursor: nat, out: seq<Term>)
    requires IsBlockOf(block, ts) ==> Replays(ts, cursor, out)
    ensures OnTrack(block, ts, cursor, out)
  {
  }

  lemma TermsGrow(out: seq<Term>, t: Term)
    requires TermsOk(out) && out != [] && ValueOk(t) && out[|out| - 1].hash < t.hash < U64_LIMIT
    ensures TermsOk(out + [t])
  {
  }

  lemma FirstAhead(block: seq<nat>, ts: seq<Term>)
    requires IsBlockOf(block, ts)
    ensures |block| > 8 && FromBigEndian(block[..8]) == ts[0].hash && ValueOk(ts[0]) && At(block, 8, ValueBytes(ts[0]))
    ensures Replays(ts, 8 + |ValueBytes(ts[0])|, [ts[0]])
  {
    assert Replays(ts, 0, []);
    assert ts != [] && LastHash([]) == None;
    hide *;
    var stop := NextEntry(block, ts, 0, []);
    FirstFollows(block, ts[0], stop);
    assert [] + [ts[0]] == [ts[0]];
  }

  lemma FirstFollows(block: seq<nat>, t: Term, stop: nat)
    requires EntryFollows(block, None, t, 0, stop)
    ensures |block| > 8 && FromBigEndian(block[..8]) == t.hash && ValueOk(t) && At(block, 8, ValueBytes(t))
    ensures stop == 8 + |ValueBytes(t)|
  {
    hide ValueBytes, BigEndian, FromBigEndian, Pow2;
    Powers();
    BigEndianRoundTrip(t.hash, 8);
    AtStart(block, BigEndian(t.hash, 8));
  }

  /** If the block is that of `ts`, its first entry. */
  lemma FirstTerm(block: seq<nat>, ts: seq<Term>) returns (ahead: bool, t: Term)
    ensures ahead <==> IsBlockOf(block, ts)
    ensures ahead ==> |block| > 8 && FromBigEndian(block[..8]) == t.hash && ValueOk(t) && At(block, 8, ValueBytes(t))
    ensures ahead ==> Replays(ts, 8 + |ValueBytes(t)|, [t])
  {
    ahead, t := false, Term(0, 0, 1, None);
    if IsBlockOf(block, ts) {
      FirstAhead(block, ts);
      ahead, t := true, ts[0];
    }
  }

  lemma AtStart(block: seq<nat>, x: seq<nat>)
    requires At(block, 0, x)
    ensures |x| <= |block| && block[..|x|] == x
  {
  }

  lemma EndOfBlock(block: seq<nat>, ts: seq<Term>, cursor: nat, out: seq<Term>)
    requires OnTrack(block, ts, cursor, out) && cursor >= |block|
    ensures IsBlockOf(block, ts) ==> out == ts
  {
    if IsBlockOf(block, ts) {
      hide IsBlockOf, Replays;
      ReplayEnds(block, ts, cursor, out);
    }
  }

  /**
   `for_each_entry`: whatever is accepted has strictly ascending hashes and canonical values, and a
   block written for `ts` replays exactly `ts`.
   */
  method ForEachEntry(block: seq<nat>, ghost ts: seq<Term>) returns (r: Result<seq<Term>>)
    requires Below(block, 256)
    ensures r.Ok? ==> r.value != [] && TermsOk(r.value)
    ensures IsBlockOf(block, ts) ==> r == Ok(ts)
  {
    hide *;
    ghost var ahead, t := FirstTerm(block, ts);
    if |block| <= 8 {
      return Err;
    }
    var hash := FromBigEndian(block[..8]);
    var first := ReadValue(block, hash, 8, ahead, t);
    if first.Err? {
      return Err;
    }
    HashFits(block, first.value.0);
    StaysOnTrack(block, ts, first.value.1, [first.value.0]);
    r := ReplayRest(block, first.value.1, first.value.0, ts);
  }

  /** The entries after the first. */
  method ReplayRest(block: seq<nat>, start: nat, first: Term, ghost ts: seq<Term>) returns (r: Result<seq<Term>>)
    requires Below(block, 256) && start <= |block| && TermsOk([first]) && OnTrack(block, ts, start, [first])
    ensures r.Ok? ==> r.value != [] && TermsOk(r.value)
    ensures IsBlockOf(block, ts) ==> r == Ok(ts)
  {
    hide *;
    var out, cursor := [first], start;
    while cursor < |block|
      invariant cursor <= |block| && out != [] && TermsOk(out) && OnTrack(block, ts, cursor, out)
      decreases |block| - cursor
    {
      ghost var ahead, t, stop := Ahead(block, ts, cursor, out);
      var next := NextTerm(block, cursor, out[|out| - 1].hash, ahead, t, stop);
      if next.Err? {
        return Err;
      }
      TermsGrow(out, next.value.0);
      StaysOnTrack(block, ts, next.value.1, out + [next.value.0]);
      out := out + [next.value.0];
      cursor := next.value.1;
    }
    EndOfBlock(block, ts, cursor, out);
    return Ok(out);
  }

  /** If the block is that of `ts`, the entry that comes next and where it ends. */
  lemma Ahead(block: seq<nat>, ts: seq<Term>, cursor: nat, out: seq<Term>) returns (ahead: bool, t: Term, stop: nat)
    requires OnTrack(block, ts, cursor, out) && out != [] && cursor < |block|
    ensures ahead <==> IsBlockOf(block, ts)
    ensures ahead ==> EntryFollows(block, Some(out[|out| - 1].hash), t, cursor, stop) && Replays(ts, stop, out + [t])
  {
    assert LastHash(out) == Some(out[|out| - 1].hash);
    TrackIs(block, ts, cursor, out);
    hide *;
    ahead, t, stop := false, out[0], 0;
    if IsBlockOf(block, ts) {
      ReplayEnds(block, ts, cursor, out);
      stop := NextEntry(block, ts, cursor, out);
      ahead, t := true, ts[|out|];
    }
  }

  lemma HashFits(block: seq<nat>, t: Term)
    requires |block| > 8 && Below(block, 256) && ValueOk(t) && t.hash == FromBigEndian(block[..8])
    ensures TermsOk([t])
  {
    Powers();
    FromBigEndianBelow(block[..8]);
  }

  lemma {:induction false} FromBigEndianBelow(bytes: seq<nat>)
    requires Below(bytes, 256)
    ensures FromBigEndian(bytes) < Pow2(8 * |bytes|)
  {
    if bytes != [] {
      var front := bytes[..|bytes| - 1];
      FromBigEndianBelow(front);
      Pow2Is();
      Pow2Add(8 * |front|, 8);
      assert 8 * |front| + 8 == 8 * |bytes|;
    }
  }
}
