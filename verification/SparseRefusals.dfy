/**
 What a refused insert leaves behind (`SparseTableWriter::insert` in crates/index/src/sparse_table.rs):
 a hash without a value in the pending block, which no reader of the block gets past.
 */
module SparseRefusals {
  import opened Wrappers
  import opened Slices
  import opened Bits
  import opened Varints
  import opened SparseEntries
  import opened SparseWriter

  // ---------------------------------------------------------------------------------------------
  // Encodings are prefix-free

  lemma {:induction false} VarintUnique(block: seq<nat>, at: nat, v: nat, w: nat)
    requires At(block, at, Varint(v)) && At(block, at, Varint(w))
    ensures v == w
    decreases v
  {
    VarintStep(v);
    VarintStep(w);
    hide Varint;
    if v < 128 {
      AtFirst(block, at, v, []);
    } else {
      AtFirst(block, at, v % 128 + 128, Varint(v / 128));
    }
    if w < 128 {
      AtFirst(block, at, w, []);
    } else {
      AtFirst(block, at, w % 128 + 128, Varint(w / 128));
    }
    if v >= 128 && w >= 128 {
      VarintUnique(block, at + 1, v / 128, w / 128);
    }
  }

  lemma VarintStep(v: nat)
    ensures Varint(v) == if v < 128 then [v] + [] else [v % 128 + 128] + Varint(v / 128)
  {
  }

  lemma HashUnique(block: seq<nat>, previous: Option<nat>, at: nat, h: nat, g: nat)
    requires h < U64_LIMIT && g < U64_LIMIT && (previous.Some? ==> previous.value < h && previous.value < g)
    requires At(block, at, HashBytes(previous, h)) && At(block, at, HashBytes(previous, g))
    ensures h == g
  {
    hide Varint, BigEndian, Pow2;
    match previous
    case Some(last) => VarintUnique(block, at, h - last, g - last);
    case None =>
      Powers();
      BigEndianRoundTrip(h, 8);
      BigEndianRoundTrip(g, 8);
  }

  lemma ValueUnique(block: seq<nat>, at: nat, t: Term, u: Term)
    requires ValueOk(t) && ValueOk(u) && t.hash == u.hash
    requires At(block, at, ValueBytes(t)) && At(block, at, ValueBytes(u))
    ensures t == u
  {
    hide *;
    ValueParts(block, at, t);
    ValueParts(block, at, u);
    TagsTell(t, u);
    HasLen(t);
    HasLen(u);
    EncodedUnique(block, at, Tag(t), Tag(u));
    var next := at + |Varint(Tag(t))|;
    if t.count != 1 {
      ListUnique(block, next, t, at + |ValueBytes(t)|, u, at + |ValueBytes(u)|);
    }
    SameTerm(t, u);
  }

  lemma HasLen(t: Term)
    requires ValueOk(t)
    ensures t.count != 1 ==> t.len.Some?
  {
  }

  lemma EncodedUnique(block: seq<nat>, at: nat, v: nat, w: nat)
    requires Encoded(block, at, v) && Encoded(block, at, w)
    ensures v == w
  {
    VarintUnique(block, at, v, w);
  }

  lemma ListUnique(block: seq<nat>, at: nat, t: Term, stop: nat, u: Term, end: nat)
    requires ListAhead(block, at, t, stop) && ListAhead(block, at, u, end)
    ensures t.offset == u.offset && t.len == u.len
  {
    hide Varint, Encoded;
    EncodedUnique(block, at, t.offset, u.offset);
    EncodedUnique(block, at + |Varint(t.offset)|, t.len.value, u.len.value);
  }

  lemma TagsTell(t: Term, u: Term)
    ensures Tag(t) == Tag(u) ==> t.count == u.count && (t.count == 1 ==> t.offset == u.offset)
  {
    TagBits(t);
    TagBits(u);
    hide Tag;
  }

  lemma SameTerm(t: Term, u: Term)
    requires ValueOk(t) && ValueOk(u) && t.hash == u.hash && t.count == u.count && t.offset == u.offset
    requires t.count != 1 ==> t.len == u.len
    ensures t == u
  {
  }

  /** An entry behind a known hash can be read in one way only. */
  lemma EntryUnique(block: seq<nat>, previous: Option<nat>, at: nat, t: Term, stop: nat, u: Term, end: nat)
    requires EntryFollows(block, previous, t, at, stop) && EntryFollows(block, previous, u, at, end)
    ensures t == u && stop == end
  {
    hide At, HashBytes, ValueBytes, ValueOk;
    HashUnique(block, previous, at, t.hash, u.hash);
    ValueUnique(block, at + |HashBytes(previous, t.hash)|, t, u);
  }

  lemma FollowsGrows(block: seq<nat>, more: seq<nat>, previous: Option<nat>, t: Term, at: nat, stop: nat)
    requires EntryFollows(block, previous, t, at, stop)
    ensures EntryFollows(block + more, previous, t, at, stop)
  {
    hide HashBytes, ValueBytes, At;
    AtLonger(block, more, at, HashBytes(previous, t.hash));
    AtLonger(block, more, at + |HashBytes(previous, t.hash)|, ValueBytes(t));
  }

  lemma AtLonger(block: seq<nat>, more: seq<nat>, at: nat, x: seq<nat>)
    requires At(block, at, x)
    ensures At(block + more, at, x)
  {
    assert (block + more)[at..at + |x|] == block[at..at + |x|];
  }

  /** Two insert sequences with a common block agree as far as the shorter encoding goes. */
  lemma {:induction false} SharedPrefix(ts: seq<Term>, us: seq<Term>, more: seq<nat>, n: nat)
    requires TermsOk(ts) && TermsOk(us) && BlockBytes(us) == BlockBytes(ts) + more && n <= |ts|
    ensures n <= |us| && TermsOk(ts[..n]) && ts[..n] == us[..n]
    decreases n
  {
    hide *;
    PrefixOk(ts, n);
    if n == 0 {
      assert ts[..0] == us[..0];
    } else {
      var m := n - 1;
      SharedPrefix(ts, us, more, m);
      PrefixOk(us, m);
      NextFollows(ts, m);
      var at := |BlockBytes(ts[..m])|;
      FollowsGrows(BlockBytes(ts), more, LastHash(ts[..m]), ts[m], at, at + |EntryBytes(ts, m)|);
      if m == |us| {
        WholeTake(us);
        EntryAhead(ts, m);
        EntryNonempty(ts, m);
        BlockPrefix(ts, n);
      }
      NextFollows(us, m);
      EntryUnique(BlockBytes(us), LastHash(ts[..m]), at, ts[m], at + |EntryBytes(ts, m)|, us[m], at + |EntryBytes(us, m)|);
      TakeNext(ts, m);
      TakeNext(us, m);
    }
  }

  lemma WholeTake(us: seq<Term>)
    ensures us[..|us|] == us
  {
  }

  lemma EntryNonempty(ts: seq<Term>, n: nat)
    requires TermsOk(ts) && n < |ts|
    ensures |EntryBytes(ts, n)| >= 2
  {
    EntryBytesIs(ts, n);
  }

  /** Behind whole entries, a hash alone never completes a block: no insert sequence encodes to it. */
  lemma StrayIsNoBlock(ts: seq<Term>, hash: nat, us: seq<Term>)
    requires TermsOk(ts) && hash < U64_LIMIT && (LastHash(ts).Some? ==> LastHash(ts).value < hash)
    ensures !IsBlockOf(BlockBytes(ts) + HashBytes(LastHash(ts), hash), us)
  {
    var block := BlockBytes(ts) + HashBytes(LastHash(ts), hash);
    if IsBlockOf(block, us) {
      BlockOfIs(block, us);
      hide *;
      StrayEnds(ts, hash, us);
    }
  }

  lemma BlockOfIs(block: seq<nat>, us: seq<Term>)
    requires IsBlockOf(block, us)
    ensures TermsOk(us) && BlockBytes(us) == block
  {
  }

  lemma StrayEnds(ts: seq<Term>, hash: nat, us: seq<Term>)
    requires TermsOk(ts) && hash < U64_LIMIT && (LastHash(ts).Some? ==> LastHash(ts).value < hash) && TermsOk(us)
    ensures BlockBytes(us) != BlockBytes(ts) + HashBytes(LastHash(ts), hash)
  {
    hide *;
    var n, x := |ts|, HashBytes(LastHash(ts), hash);
    WholeTake(ts);
    WholeTake(us);
    HashNonempty(LastHash(ts), hash);
    if BlockBytes(us) == BlockBytes(ts) + x {
      SharedPrefix(ts, us, x, n);
      if n < |us| {
        NextFollows(us, n);
        var at := |BlockBytes(ts)|;
        FollowsHash(BlockBytes(us), LastHash(ts), us[n], at, at + |EntryBytes(us, n)|);
        AtEnd(BlockBytes(ts), x);
        HashUnique(BlockBytes(us), LastHash(ts), at, us[n].hash, hash);
      }
    }
  }

  lemma HashNonempty(previous: Option<nat>, hash: nat)
    requires previous.Some? ==> previous.value < hash
    ensures |HashBytes(previous, hash)| >= 1
  {
  }

  lemma AtEnd(block: seq<nat>, x: seq<nat>)
    ensures At(block + x, |block|, x)
  {
  }

  /** An entry's hash, and room behind it. */
  lemma FollowsHash(block: seq<nat>, previous: Option<nat>, t: Term, at: nat, stop: nat)
    requires EntryFollows(block, previous, t, at, stop)
    ensures t.hash < U64_LIMIT && (previous.Some? ==> previous.value < t.hash)
    ensures At(block, at, HashBytes(previous, t.hash)) && at + |HashBytes(previous, t.hash)| < |block|
  {
    hide HashBytes;
  }

  /** A refused singleton behind one entry: `[.., 1, 1, 1]` ends in the distance of a hash without a value. */
  lemma RefusalExample()
    ensures var first, refused := Term(1, 0, 1, None), Term(2, 0, 1, Some(1));
      && TermsOk([first]) && !ValueOk(refused) && Follows([first], refused)
      && HashOnto(BlockBytes([first]), Some(1), refused.hash) == [0, 0, 0, 0, 0, 0, 0, 1, 1, 1]
      && forall us :: !IsBlockOf([0, 0, 0, 0, 0, 0, 0, 1, 1, 1], us)
  {
    OneEntry();
    hide BlockBytes, HashBytes, HashOnto, IsBlockOf, Varint, BigEndian;
    forall us ensures !IsBlockOf([0, 0, 0, 0, 0, 0, 0, 1, 1, 1], us) {
      StrayIsNoBlock([Term(1, 0, 1, None)], 2, us);
    }
  }

  lemma OneEntry()
    ensures var first, refused := Term(1, 0, 1, None), Term(2, 0, 1, Some(1));
      && TermsOk([first]) && !ValueOk(refused) && Follows([first], refused) && LastHash([first]) == Some(1)
      && HashOnto(BlockBytes([first]), Some(1), refused.hash) == [0, 0, 0, 0, 0, 0, 0, 1, 1, 1]
      && BlockBytes([first]) + HashBytes(Some(1), 2) == [0, 0, 0, 0, 0, 0, 0, 1, 1, 1]
  {
    var first := Term(1, 0, 1, None);
    FirstBlock();
    hide BigEndian, BlockBytes;
    assert LastHash([first]) == Some(1) && Varint(1) == [1];
  }

  lemma FirstBlock()
    ensures TermsOk([Term(1, 0, 1, None)]) && BlockBytes([Term(1, 0, 1, None)]) == [0, 0, 0, 0, 0, 0, 0, 1, 1]
  {
    var first := Term(1, 0, 1, None);
    BlockBytesNext([], first);
    OneBigEndian();
    hide BigEndian;
    assert [] + [first] == [first];
    assert ValueBytes(first) == [1] && HashBytes(None, 1) == [0, 0, 0, 0, 0, 0, 0, 1];
  }

  lemma OneBigEndian()
    ensures BigEndian(1, 8) == [0, 0, 0, 0, 0, 0, 0, 1]
  {
    assert BigEndian(0, 1) == [0];
    assert BigEndian(0, 2) == [0, 0];
    assert BigEndian(0, 3) == [0, 0, 0];
    assert BigEndian(0, 4) == [0, 0, 0, 0];
    assert BigEndian(0, 5) == [0, 0, 0, 0, 0];
    assert BigEndian(0, 6) == [0, 0, 0, 0, 0, 0];
    assert BigEndian(0, 7) == [0, 0, 0, 0, 0, 0, 0];
  }
}
