/**
 Fixed-width bit packing through a 64-bit accumulator (`pack_ids` and `unpack_ids` in
 crates/index/src/lib.rs, `pack_fixed` and `unpack_fixed` in crates/index/src/delta_blocks.rs).
 */
module Bits {
  import opened Wrappers

  // ---------------------------------------------------------------------------------------------
  // Shifts on unbounded numbers

  function Pow2(n: nat): (r: nat)
    ensures r >= 1
  {
    if n == 0 then 1 else 2 * Pow2(n - 1)
  }

  /** `x << n`. */
  function Shl(x: nat, n: nat): nat { x * Pow2(n) }

  function Quotient(x: nat, p: nat): nat
    requires p >= 1
  {
    x / p
  }

  /** `x >> n`. */
  function Shr(x: nat, n: nat): nat { Quotient(x, Pow2(n)) }

  /** `x & ((1 << n) - 1)`. */
  function Low(x: nat, n: nat): nat { x % Pow2(n) }

  lemma {:induction false} Pow2Add(a: nat, b: nat)
    ensures Pow2(a + b) == Pow2(a) * Pow2(b)
    decreases b
  {
    if b > 0 {
      Pow2Add(a, b - 1);
      Pow2Step(a + b);
      Pow2Step(b);
      Times(Pow2(a), Pow2(b - 1));
    }
  }

  lemma Pow2Step(n: nat)
    requires n > 0
    ensures Pow2(n) == 2 * Pow2(n - 1)
  {
  }

  lemma Times(x: nat, y: nat)
    ensures 2 * (x * y) == x * (2 * y)
  {
  }

  lemma {:induction false} Pow2Grows(a: nat, b: nat)
    requires a <= b
    ensures Pow2(a) <= Pow2(b)
    decreases b
  {
    if a < b {
      Pow2Grows(a, b - 1);
    }
  }

  lemma Pow2Is()
    ensures Pow2(8) == 256 && Pow2(32) == 0x1_0000_0000 && Pow2(40) == 0x100_0000_0000
  {
    assert Pow2(8) == 256;
    Pow2Add(8, 8);
    Pow2Add(16, 16);
    Pow2Add(32, 8);
  }

  lemma ShlZero(x: nat, n: nat)
    ensures Shl(x, 0) == x && Shl(0, n) == 0
  {
  }

  lemma ShlAdd(x: nat, y: nat, n: nat)
    ensures Shl(x + y, n) == Shl(x, n) + Shl(y, n)
  {
  }

  lemma ShlShl(x: nat, a: nat, b: nat)
    ensures Shl(Shl(x, a), b) == Shl(x, a + b)
  {
    Pow2Add(a, b);
    hide Pow2;
    Assoc(x, Pow2(a), Pow2(b));
  }

  lemma Assoc(x: nat, p: nat, q: nat)
    ensures x * p * q == x * (p * q)
  {
  }

  /** A shifted number sits above the bits already filled. */
  lemma ShlBelow(x: nat, d: nat, a: nat, b: nat)
    requires x < Pow2(a) && d < Pow2(b)
    ensures x + Shl(d, a) < Pow2(a + b)
  {
    Pow2Add(a, b);
    hide Pow2;
    ProductBelow(x, d, Pow2(a), Pow2(b));
  }

  lemma ProductBelow(x: nat, d: nat, p: nat, q: nat)
    requires x < p && d < q
    ensures x + d * p < p * q
  {
    assert d * p <= (q - 1) * p;
  }

  /** Low bits and high bits make up the number. */
  lemma SplitLow(x: nat, n: nat, f: nat)
    requires x < Pow2(f) && n <= f
    ensures x == Low(x, n) + Shl(Shr(x, n), n)
    ensures Low(x, n) < Pow2(n) && Shr(x, n) < Pow2(f - n)
  {
    Pow2Add(f - n, n);
    hide Pow2;
    Divide(x, Pow2(n), Pow2(f - n));
  }

  lemma TimesGrows(a: nat, b: nat, p: nat)
    requires a <= b
    ensures a * p <= b * p
  {
  }

  lemma Divide(x: nat, p: nat, q: nat)
    requires p >= 1 && x < q * p
    ensures x == x % p + Quotient(x, p) * p && x % p < p && Quotient(x, p) < q
  {
    if Quotient(x, p) >= q {
      TimesGrows(q, Quotient(x, p), p);
    }
  }

  /** Splitting off the high part is unique. */
  lemma ShlUnique(x: nat, d: nat, y: nat, e: nat, n: nat)
    requires x < Pow2(n) && y < Pow2(n) && x + Shl(d, n) == y + Shl(e, n)
    ensures x == y && d == e
  {
    QuotientUnique(x, d, y, e, Pow2(n));
  }

  lemma QuotientUnique(x: nat, d: nat, y: nat, e: nat, p: nat)
    requires x < p && y < p && x + d * p == y + e * p
    ensures x == y && d == e
  {
    if d < e {
      TimesNext(d, p);
      TimesGrows(d + 1, e, p);
    } else if e < d {
      TimesNext(e, p);
      TimesGrows(e + 1, d, p);
    }
  }

  lemma TimesNext(a: nat, p: nat)
    ensures (a + 1) * p == a * p + p
  {
  }

  // ---------------------------------------------------------------------------------------------
  // Numbers as digits of `width` bits, least significant first

  /** Bits taken by `n` digits. */
  function Span(n: nat, width: nat): nat {
    if n == 0 then 0 else Span(n - 1, width) + width
  }

  lemma {:induction false} SpanIsProduct(n: nat, width: nat)
    ensures Span(n, width) == n * width
  {
    if n > 0 {
      SpanIsProduct(n - 1, width);
      assert (n - 1) * width + width == n * width;
    }
  }

  lemma {:induction false} SpanGrows(n: nat, m: nat, width: nat)
    requires n <= m
    ensures Span(n, width) <= Span(m, width)
    decreases m
  {
    if n < m {
      SpanGrows(n, m - 1, width);
    }
  }

  lemma {:induction false} BytesSpan(n: nat)
    ensures Span(n, 8) == 8 * n
  {
    if n > 0 {
      BytesSpan(n - 1);
    }
  }

  function Digits(ds: seq<nat>, width: nat, n: nat): nat
    requires n <= |ds|
  {
    if n == 0 then 0 else Digits(ds, width, n - 1) + Shl(ds[n - 1], Span(n - 1, width))
  }

  ghost predicate Below(ds: seq<nat>, bound: nat) {
    forall i :: 0 <= i < |ds| ==> ds[i] < bound
  }

  lemma BelowAppend(ds: seq<nat>, d: nat, bound: nat)
    requires Below(ds, bound) && d < bound
    ensures Below(ds + [d], bound)
  {
  }

  lemma {:induction false} DigitsPrefix(ds: seq<nat>, more: seq<nat>, width: nat, n: nat)
    requires n <= |ds|
    ensures Digits(ds + more, width, n) == Digits(ds, width, n)
  {
    hide Shl;
    if n > 0 {
      DigitsPrefix(ds, more, width, n - 1);
    }
  }

  lemma DigitsAppend(ds: seq<nat>, d: nat, width: nat)
    ensures Digits(ds + [d], width, |ds| + 1) == Digits(ds, width, |ds|) + Shl(d, Span(|ds|, width))
  {
    hide Shl;
    DigitsPrefix(ds, [d], width, |ds|);
  }

  lemma DigitsNext(ds: seq<nat>, width: nat, n: nat)
    requires n < |ds|
    ensures Digits(ds, width, n + 1) == Digits(ds, width, n) + Shl(ds[n], Span(n, width))
    ensures Span(n + 1, width) == Span(n, width) + width
  {
    hide Shl;
  }

  lemma {:induction false} DigitsBelow(ds: seq<nat>, width: nat, n: nat)
    requires n <= |ds| && Below(ds, Pow2(width))
    ensures Digits(ds, width, n) < Pow2(Span(n, width))
  {
    hide Shl;
    if n > 0 {
      DigitsBelow(ds, width, n - 1);
      ShlBelow(Digits(ds, width, n - 1), ds[n - 1], Span(n - 1, width), width);
    }
  }

  /** Digits below the base are determined by the number they make. */
  lemma {:induction false} DigitsUnique(a: seq<nat>, b: seq<nat>, width: nat, n: nat)
    requires n <= |a| && n <= |b| && Below(a, Pow2(width)) && Below(b, Pow2(width))
    requires Digits(a, width, n) == Digits(b, width, n)
    ensures a[..n] == b[..n]
  {
    hide Shl, Pow2;
    if n > 0 {
      DigitsBelow(a, width, n - 1);
      DigitsBelow(b, width, n - 1);
      ShlUnique(Digits(a, width, n - 1), a[n - 1], Digits(b, width, n - 1), b[n - 1], Span(n - 1, width));
      DigitsUnique(a, b, width, n - 1);
      assert a[..n] == a[..n - 1] + [a[n - 1]] && b[..n] == b[..n - 1] + [b[n - 1]];
    }
  }

  // ---------------------------------------------------------------------------------------------
  // Packing

  /** `n` ids of `width` bits, rounded up to whole bytes. */
  function PackedLen(n: nat, width: nat): nat { (Span(n, width) + 7) / 8 }

  /** The bytes spell the same number as the ids, in exactly as many bytes as that takes. */
  ghost predicate IsPacked(bytes: seq<nat>, ids: seq<nat>, width: nat) {
    && |bytes| == PackedLen(|ids|, width) && Below(bytes, 256)
    && Digits(bytes, 8, |bytes|) == Digits(ids, width, |ids|)
  }

  /** Accumulator state: `k` ids went in, the written bytes plus the accumulator hold them. */
  ghost predicate Packing(ids: seq<nat>, width: nat, k: nat, buf: seq<nat>, acc: nat, filled: nat) {
    && k <= |ids| && Below(buf, 256) && acc < Pow2(filled)
    && Span(|buf|, 8) + filled == Span(k, width)
    && Digits(ids, width, k) == Digits(buf, 8, |buf|) + Shl(acc, Span(|buf|, 8))
  }

  lemma TakeId(ids: seq<nat>, width: nat, k: nat, buf: seq<nat>, acc: nat, filled: nat)
    requires Packing(ids, width, k, buf, acc, filled) && k < |ids| && ids[k] < Pow2(width)
    ensures Packing(ids, width, k + 1, buf, acc + Shl(ids[k], filled), filled + width)
  {
    hide Shl, Pow2, Span, Digits;
    var m := Span(|buf|, 8);
    ShlBelow(acc, ids[k], filled, width);
    DigitsNext(ids, width, k);
    ShlAdd(acc, Shl(ids[k], filled), m);
    ShlShl(ids[k], filled, m);
  }

  lemma GiveByte(ids: seq<nat>, width: nat, k: nat, buf: seq<nat>, acc: nat, filled: nat)
    requires Packing(ids, width, k, buf, acc, filled) && filled >= 8
    ensures Low(acc, 8) < 256
    ensures Packing(ids, width, k, buf + [Low(acc, 8)], Shr(acc, 8), filled - 8)
  {
    hide Shl, Shr, Low, Pow2, Span, Digits, Below;
    var m, b := Span(|buf|, 8), Low(acc, 8);
    Pow2Is();
    SplitLow(acc, 8, filled);
    ShlAdd(b, Shl(Shr(acc, 8), 8), m);
    ShlShl(Shr(acc, 8), 8, m);
    DigitsAppend(buf, b, 8);
    BelowAppend(buf, b, 256);
    SpanNext(|buf|, 8);
  }

  lemma SpanNext(n: nat, width: nat)
    ensures Span(n + 1, width) == Span(n, width) + width
  {
  }

  lemma LastByte(ids: seq<nat>, width: nat, buf: seq<nat>, acc: nat, filled: nat)
    requires Packing(ids, width, |ids|, buf, acc, filled) && filled < 8
    ensures acc < 256
    ensures IsPacked(if filled > 0 then buf + [acc] else buf, ids, width)
  {
    Pow2Is();
    Pow2Grows(filled, 8);
    DigitsAppend(buf, acc, 8);
    BytesSpan(|buf|);
    ShlZero(0, Span(|buf|, 8));
    assert filled == 0 ==> acc == 0;
    hide Shl, Pow2, Span, Digits;
  }

  /** The accumulator never needs more than 40 of its 64 bits. */
  lemma NoOverflow(acc: nat, filled: nat)
    requires acc < Pow2(filled) && filled <= 40
    ensures acc < 0x100_0000_0000
  {
    Pow2Is();
    Pow2Grows(filled, 40);
  }

  lemma PackingFits(ids: seq<nat>, width: nat, k: nat, buf: seq<nat>, acc: nat, filled: nat)
    requires Packing(ids, width, k, buf, acc, filled)
    ensures acc < Pow2(filled)
  {
  }

  lemma IdBelow(ids: seq<nat>, bound: nat, k: nat)
    requires Below(ids, bound) && k < |ids|
    ensures ids[k] < bound
  {
  }

  /** Append the ids at `width` bits each. */
  method PackIds(ids: seq<nat>, width: nat) returns (buf: seq<nat>)
    requires 1 <= width <= 32 && Below(ids, Pow2(width))
    ensures IsPacked(buf, ids, width)
  {
    hide *;
    buf := [];
    var acc: nat, filled: nat := 0, 0;
    NothingPacked(ids, width);
    for k := 0 to |ids|
      invariant Packing(ids, width, k, buf, acc, filled) && filled < 8
    {
      IdBelow(ids, Pow2(width), k);
      TakeId(ids, width, k, buf, acc, filled);
      acc := acc + Shl(ids[k], filled);
      filled := filled + width;
      PackingFits(ids, width, k + 1, buf, acc, filled);
      NoOverflow(acc, filled);
      assert acc < 0x1_0000_0000_0000_0000;
      while filled >= 8
        invariant Packing(ids, width, k + 1, buf, acc, filled)
      {
        GiveByte(ids, width, k + 1, buf, acc, filled);
        buf := buf + [Low(acc, 8)];
        acc := Shr(acc, 8);
        filled := filled - 8;
      }
    }
    LastByte(ids, width, buf, acc, filled);
    if filled > 0 {
      buf := buf + [acc];
    }
  }

  lemma NothingPacked(ids: seq<nat>, width: nat)
    ensures Packing(ids, width, 0, [], 0, 0)
  {
    ShlZero(0, 0);
  }

  // ---------------------------------------------------------------------------------------------
  // Unpacking

  /** `m` bytes were read; the ids taken out plus the accumulator hold them. */
  ghost predicate Unpacking(bytes: seq<nat>, width: nat, m: nat, out: seq<nat>, acc: nat, filled: nat) {
    && m <= |bytes| && Below(out, Pow2(width)) && acc < Pow2(filled)
    && Span(m, 8) == Span(|out|, width) + filled
    && Digits(bytes, 8, m) == Digits(out, width, |out|) + Shl(acc, Span(|out|, width))
  }

  lemma TakeByte(bytes: seq<nat>, width: nat, m: nat, out: seq<nat>, acc: nat, filled: nat)
    requires Unpacking(bytes, width, m, out, acc, filled) && m < |bytes| && bytes[m] < 256
    ensures Unpacking(bytes, width, m + 1, out, acc + Shl(bytes[m], filled), filled + 8)
  {
    Pow2Is();
    hide Shl, Pow2, Span, Digits;
    var k := Span(|out|, width);
    ShlBelow(acc, bytes[m], filled, 8);
    DigitsNext(bytes, 8, m);
    ShlAdd(acc, Shl(bytes[m], filled), k);
    ShlShl(bytes[m], filled, k);
  }

  lemma GiveId(bytes: seq<nat>, width: nat, m: nat, out: seq<nat>, acc: nat, filled: nat)
    requires Unpacking(bytes, width, m, out, acc, filled) && filled >= width
    ensures Unpacking(bytes, width, m, out + [Low(acc, width)], Shr(acc, width), filled - width)
  {
    hide Shl, Shr, Low, Pow2, Span, Digits, Below;
    var k, d := Span(|out|, width), Low(acc, width);
    SplitLow(acc, width, filled);
    ShlAdd(d, Shl(Shr(acc, width), width), k);
    ShlShl(Shr(acc, width), width, k);
    DigitsAppend(out, d, width);
    BelowAppend(out, d, Pow2(width));
    SpanNext(|out|, width);
  }

  lemma MoreBytes(bytes: seq<nat>, width: nat, n: nat, m: nat, out: seq<nat>, acc: nat, filled: nat)
    requires Unpacking(bytes, width, m, out, acc, filled) && |out| < n && filled < width && |bytes| >= PackedLen(n, width)
    requires Below(bytes, 256)
    ensures m < |bytes| && bytes[m] < 256
  {
    SpanGrows(|out| + 1, n, width);
    SpanNext(|out|, width);
    BytesSpan(m);
    hide Span, Digits, Shl;
  }

  lemma UnpackingFits(bytes: seq<nat>, width: nat, m: nat, out: seq<nat>, acc: nat, filled: nat)
    requires Unpacking(bytes, width, m, out, acc, filled)
    ensures acc < Pow2(filled) && m <= |bytes|
  {
  }

  /** Take out `n` ids of `width` bits. */
  method UnpackIds(bytes: seq<nat>, n: nat, width: nat) returns (out: seq<nat>)
    requires 1 <= width <= 32 && Below(bytes, 256) && |bytes| == PackedLen(n, width)
    ensures |out| == n && Below(out, Pow2(width))
    ensures forall ids :: |ids| == n && Below(ids, Pow2(width)) && IsPacked(bytes, ids, width) ==> out == ids
  {
    hide *;
    out := [];
    var acc: nat, filled: nat, m: nat := 0, 0, 0;
    NothingUnpacked(bytes, width);
    for k := 0 to n
      invariant |out| == k && Unpacking(bytes, width, m, out, acc, filled) && filled < 8
    {
      while filled < width
        invariant |out| == k && Unpacking(bytes, width, m, out, acc, filled) && filled < width + 8
        decreases width + 8 - filled
      {
        MoreBytes(bytes, width, n, m, out, acc, filled);
        TakeByte(bytes, width, m, out, acc, filled);
        acc := acc + Shl(bytes[m], filled);
        m := m + 1;
        filled := filled + 8;
        UnpackingFits(bytes, width, m, out, acc, filled);
        NoOverflow(acc, filled);
        assert acc < 0x1_0000_0000_0000_0000;
      }
      GiveId(bytes, width, m, out, acc, filled);
      out := out + [Low(acc, width)];
      acc := Shr(acc, width);
      filled := filled - width;
    }
    UnpackedBelow(bytes, width, m, out, acc, filled);
    forall ids | |ids| == n && Below(ids, Pow2(width)) && IsPacked(bytes, ids, width) ensures out == ids {
      Unpacked(bytes, ids, width, m, out, acc, filled);
    }
  }

  lemma NothingUnpacked(bytes: seq<nat>, width: nat)
    ensures Unpacking(bytes, width, 0, [], 0, 0)
  {
    ShlZero(0, 0);
  }

  lemma UnpackedBelow(bytes: seq<nat>, width: nat, m: nat, out: seq<nat>, acc: nat, filled: nat)
    requires Unpacking(bytes, width, m, out, acc, filled)
    ensures Below(out, Pow2(width))
  {
  }

  lemma Unpacked(bytes: seq<nat>, ids: seq<nat>, width: nat, m: nat, out: seq<nat>, acc: nat, filled: nat)
    requires Unpacking(bytes, width, m, out, acc, filled) && filled < 8 && |out| == |ids|
    requires Below(ids, Pow2(width)) && IsPacked(bytes, ids, width)
    ensures out == ids
  {
    hide Shl, Pow2, Digits, Span;
    BytesSpan(m);
    BytesSpan(|bytes|);
    assert m == |bytes|;
    DigitsBelow(out, width, |out|);
    DigitsBelow(ids, width, |ids|);
    ShlZero(0, Span(|out|, width));
    ShlUnique(Digits(out, width, |out|), acc, Digits(ids, width, |ids|), 0, Span(|out|, width));
    DigitsUnique(out, ids, width, |ids|);
    assert out[..|ids|] == out && ids[..|ids|] == ids;
  }
}
