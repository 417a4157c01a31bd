/**
 Variable-length integers (`write_varint` and `read_varint` in crates/index/src/sparse_table.rs):
 unsigned LEB128, section 7.6 of DWARF Version 5.
 */
module Varints {
  import opened Wrappers
  import opened Bits

  const U64_LIMIT: nat := 0x1_0000_0000_0000_0000

  /** Seven bits a byte, least significant first, the high bit set on all but the last. */
  function Varint(v: nat): (r: seq<nat>)
    ensures |r| >= 1 && Below(r, 256)
  {
    if v < 128 then [v] else [v % 128 + 128] + Varint(v / 128)
  }

  /** `x` lies in `block` at `cursor`. */
  predicate At(block: seq<nat>, cursor: nat, x: seq<nat>) {
    cursor + |x| <= |block| && block[cursor..cursor + |x|] == x
  }

  lemma AtFirst(block: seq<nat>, cursor: nat, first: nat, rest: seq<nat>)
    requires At(block, cursor, [first] + rest)
    ensures cursor < |block| && block[cursor] == first && At(block, cursor + 1, rest)
  {
    assert block[cursor..cursor + 1 + |rest|][0] == first;
    assert block[cursor + 1..cursor + 1 + |rest|] == block[cursor..cursor + 1 + |rest|][1..];
  }

  lemma AtJoin(block: seq<nat>, cursor: nat, x: seq<nat>, y: seq<nat>)
    requires At(block, cursor, x + y)
    ensures At(block, cursor, x) && At(block, cursor + |x|, y)
  {
    var z := block[cursor..cursor + |x| + |y|];
    assert block[cursor..cursor + |x|] == z[..|x|];
    assert block[cursor + |x|..cursor + |x| + |y|] == z[|x|..];
  }

  method WriteVarint(out: seq<nat>, value: nat) returns (r: seq<nat>)
    ensures r == out + Varint(value)
  {
    r := out;
    var v := value;
    while true
      invariant r + Varint(v) == out + Varint(value)
      decreases v
    {
      var byte := v % 128;
      var rest := v / 128;
      if rest == 0 {
        assert Varint(v) == [byte];
        return r + [byte];
      }
      assert r + Varint(v) == (r + [byte + 128]) + Varint(rest);
      r := r + [byte + 128];
      v := rest;
    }
  }

  /** A varint of fewer than `7 * n` bits takes at most `n` bytes. */
  lemma {:induction false} VarintLen(v: nat, n: nat)
    requires n > 0 && v < Pow2(7 * n)
    ensures |Varint(v)| <= n
    decreases n
  {
    assert Pow2(7) == 128;
    assert n == 1 ==> 7 * n == 7;
    if v >= 128 && n > 1 {
      Pow2Add(7, 7 * (n - 1));
      assert 7 + 7 * (n - 1) == 7 * n;
      VarintLen(v / 128, n - 1);
    }
  }

  // ---------------------------------------------------------------------------------------------
  // Reading

  /** Seven more bits: the low part grows and the rest shrinks. */
  lemma SevenBits(v: nat, shift: nat)
    ensures var rest := Shr(v, shift);
      && Low(v, shift + 7) == Low(v, shift) + Shl(rest % 128, shift)
      && Shr(v, shift + 7) == rest / 128
      && v == Low(v, shift) + Shl(rest, shift)
  {
    var rest := Shr(v, shift);
    var f := EnoughBits(v, shift + 7);
    SplitLow(v, shift, f);
    SplitLow(v, shift + 7, f);
    var low, high := rest % 128, rest / 128;
    assert Pow2(7) == 128;
    ShlBelow(Low(v, shift), low, shift, 7);
    Halves(high, low, shift);
    ShlUnique(Low(v, shift) + Shl(low, shift), high, Low(v, shift + 7), Shr(v, shift + 7), shift + 7);
  }

  lemma Halves(high: nat, low: nat, shift: nat)
    ensures Shl(128 * high + low, shift) == Shl(low, shift) + Shl(high, shift + 7)
  {
    Pow2Add(shift, 7);
    assert Pow2(7) == 128;
    ShlAdd(128 * high, low, shift);
    Reorder(high, Pow2(shift));
  }

  lemma Reorder(high: nat, p: nat)
    ensures 128 * high * p == high * (p * 128)
  {
  }

  lemma {:induction false} EnoughBits(v: nat, n: nat) returns (f: nat)
    ensures f >= n && v < Pow2(f)
  {
    f := n + v;
    Exponential(v);
    Pow2Grows(v, f);
  }

  lemma {:induction false} Exponential(v: nat)
    ensures v < Pow2(v)
  {
    if v > 0 {
      Exponential(v - 1);
      Pow2Step(v);
    }
  }

  /** The bits read so far are the low bits of `v`, and the rest of its varint is ahead. */
  ghost predicate Reading(block: seq<nat>, start: nat, cursor: nat, value: nat, shift: nat, v: nat) {
    && value == Low(v, shift) && At(block, cursor, Varint(Shr(v, shift)))
    && cursor + |Varint(Shr(v, shift))| == start + |Varint(v)|
    && (shift > 0 ==> Shr(v, shift) >= 1)
  }

  ghost predicate Encoded(block: seq<nat>, start: nat, v: nat) {
    v < U64_LIMIT && At(block, start, Varint(v))
  }

  ghost predicate AllReading(block: seq<nat>, start: nat, cursor: nat, value: nat, shift: nat) {
    forall v: nat :: Encoded(block, start, v) ==> Reading(block, start, cursor, value, shift, v)
  }

  lemma StartReading(block: seq<nat>, start: nat)
    ensures AllReading(block, start, start, 0, 0)
  {
    forall v: nat ensures Low(v, 0) == 0 && Shr(v, 0) == v {
      ZeroBits(v);
    }
  }

  lemma ZeroBits(v: nat)
    ensures Low(v, 0) == 0 && Shr(v, 0) == v
  {
  }

  /** What the next byte must be while some value is encoded ahead; it always passes the width checks. */
  lemma NextByte(block: seq<nat>, start: nat, cursor: nat, value: nat, shift: nat, v: nat)
    requires Encoded(block, start, v) && Reading(block, start, cursor, value, shift, v)
    ensures cursor < |block| && shift < 64 && (shift == 63 ==> block[cursor] % 128 <= 1)
    ensures block[cursor] < 128 ==> v == value + Shl(block[cursor], shift) && cursor + 1 == start + |Varint(v)|
    ensures block[cursor] >= 128 ==> Reading(block, start, cursor + 1, value + Shl(block[cursor] % 128, shift), shift + 7, v)
  {
    hide *;
    var rest := Shr(v, shift);
    ReadingIs(block, start, cursor, value, shift, v);
    SevenBits(v, shift);
    TopBits(v, shift);
    VarintStep(rest);
    LowSeven(rest);
    if rest < 128 {
      AtFirst(block, cursor, rest, []);
    } else {
      RestGrows(rest);
      AtFirst(block, cursor, rest % 128 + 128, Varint(rest / 128));
      ReadingMore(block, start, cursor + 1, value + Shl(rest % 128, shift), shift + 7, v);
    }
  }

  lemma ReadingIs(block: seq<nat>, start: nat, cursor: nat, value: nat, shift: nat, v: nat)
    requires Encoded(block, start, v) && Reading(block, start, cursor, value, shift, v)
    ensures v < U64_LIMIT && value == Low(v, shift) && At(block, cursor, Varint(Shr(v, shift)))
    ensures cursor + |Varint(Shr(v, shift))| == start + |Varint(v)|
    ensures shift > 0 ==> Shr(v, shift) >= 1
  {
  }

  lemma ReadingMore(block: seq<nat>, start: nat, cursor: nat, value: nat, shift: nat, v: nat)
    requires value == Low(v, shift) && At(block, cursor, Varint(Shr(v, shift))) && Shr(v, shift) >= 1
    requires cursor + |Varint(Shr(v, shift))| == start + |Varint(v)|
    ensures Reading(block, start, cursor, value, shift, v)
  {
  }

  lemma LowSeven(x: nat)
    ensures (x % 128 + 128) % 128 == x % 128 && (x < 128 ==> x % 128 == x)
  {
  }

  lemma RestGrows(x: nat)
    requires x >= 128
    ensures x / 128 >= 1
  {
  }

  lemma VarintStep(v: nat)
    ensures v < 128 ==> Varint(v) == [v] + []
    ensures v >= 128 ==> Varint(v) == [v % 128 + 128] + Varint(v / 128)
  {
  }

  lemma TopBits(v: nat, shift: nat)
    requires v < U64_LIMIT && (shift > 0 ==> Shr(v, shift) >= 1)
    ensures shift < 64 && (shift == 63 ==> Shr(v, shift) <= 1)
  {
    Pow2Is();
    Pow2Add(32, 32);
    Pow2Step(64);
    if shift >= 64 {
      Pow2Grows(64, shift);
      SmallQuotient(v, Pow2(shift));
    }
  }

  lemma SmallQuotient(v: nat, p: nat)
    requires v < p
    ensures Quotient(v, p) == 0
  {
  }

  lemma NoneEncoded(block: seq<nat>, start: nat, cursor: nat, value: nat, shift: nat)
    requires AllReading(block, start, cursor, value, shift)
    ensures cursor >= |block| || shift >= 64 || (shift == 63 && block[cursor] % 128 > 1) ==> forall v: nat :: !Encoded(block, start, v)
  {
    hide Encoded, Reading;
    forall v: nat | Encoded(block, start, v)
      ensures cursor < |block| && shift < 64 && (shift == 63 ==> block[cursor] % 128 <= 1)
    {
      NextByte(block, start, cursor, value, shift, v);
    }
  }

  lemma AfterByte(block: seq<nat>, start: nat, cursor: nat, value: nat, shift: nat)
    requires AllReading(block, start, cursor, value, shift) && cursor < |block|
    ensures block[cursor] < 128 ==> forall v: nat :: Encoded(block, start, v) ==> v == value + Shl(block[cursor], shift) && cursor + 1 == start + |Varint(v)|
    ensures block[cursor] >= 128 ==> AllReading(block, start, cursor + 1, value + Shl(block[cursor] % 128, shift), shift + 7)
  {
    hide Encoded, Reading, Shl;
    forall v: nat | Encoded(block, start, v)
      ensures block[cursor] < 128 ==> v == value + Shl(block[cursor], shift) && cursor + 1 == start + |Varint(v)|
      ensures block[cursor] >= 128 ==> Reading(block, start, cursor + 1, value + Shl(block[cursor] % 128, shift), shift + 7, v)
    {
      NextByte(block, start, cursor, value, shift, v);
    }
  }

  /** Anything accepted fits 64 bits, and an encoded value comes back with the cursor just past it. */
  method ReadVarint(block: seq<nat>, start: nat) returns (r: Result<(nat, nat)>)
    requires Below(block, 256)
    ensures r.Ok? ==> r.value.0 < U64_LIMIT && start < r.value.1 <= |block|
    ensures forall v: nat :: Encoded(block, start, v) ==> r == Ok((v, start + |Varint(v)|))
  {
    var value: nat, shift: nat, cursor: nat := 0, 0, start;
    hide *;
    StartReading(block, start);
    ValueStarts();
    while true
      invariant start <= cursor && (start < cursor ==> cursor <= |block|)
      invariant AllReading(block, start, cursor, value, shift) && Fits(value, shift)
      decreases |block| - cursor
    {
      NoneEncoded(block, start, cursor, value, shift);
      if cursor >= |block| {
        return Err;
      }
      var byte := block[cursor];
      if shift >= 64 {
        return Err;
      }
      if shift >= 63 && byte % 128 > 1 {
        return Err;
      }
      AfterByte(block, start, cursor, value, shift);
      ValueGrows(value, shift, byte);
      if byte < 128 {
        return Ok((value + Shl(byte, shift), cursor + 1));
      }
      value := value + Shl(byte % 128, shift);
      cursor := cursor + 1;
      shift := shift + 7;
    }
  }

  /** The shift moves in sevens and the value stays below it and below 64 bits. */
  ghost predicate Fits(value: nat, shift: nat) {
    shift % 7 == 0 && value < Pow2(shift) && value < U64_LIMIT
  }

  lemma ValueStarts()
    ensures Fits(0, 0)
  {
  }

  lemma ValueGrows(value: nat, shift: nat, byte: nat)
    requires Fits(value, shift) && shift < 64 && (shift >= 63 ==> byte % 128 <= 1)
    ensures Fits(value + Shl(byte % 128, shift), shift + 7)
    ensures byte < 128 ==> byte % 128 == byte
  {
    PowersUpTo64();
    hide Shl, Pow2;
    ShlBelow(value, byte % 128, shift, 7);
    if shift >= 63 {
      ShlBelow(value, byte % 128, shift, 1);
    } else {
      Pow2Grows(shift + 7, 63);
    }
  }

  lemma PowersUpTo64()
    ensures Pow2(1) == 2 && Pow2(7) == 128 && Pow2(64) == U64_LIMIT && Pow2(63) < U64_LIMIT
  {
    assert Pow2(7) == 128;
    Pow2Is();
    Pow2Add(32, 32);
    Pow2Step(64);
    Pow2Step(1);
  }
}
