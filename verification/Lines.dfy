/**
 Line arithmetic over per-block newline counts (`extend_line_range` and `locate_line` in
 crates/index/src/pack.rs).  Block reads return the document's bytes (see PackRead).
 */
module Lines {
  import opened Wrappers
  import opened BlockSpace

  // ---------------------------------------------------------------------------------------------
  // Lines, said directly about the document

  /** Newlines in `doc[a..b]`. */
  function Newlines(doc: seq<Byte>, a: nat, b: nat): nat
    requires b <= |doc|
  {
    if b <= a then 0 else Newlines(doc, a, b - 1) + if doc[b - 1] == NEWLINE then 1 else 0
  }

  lemma {:induction false} NewlinesSplit(doc: seq<Byte>, a: nat, m: nat, b: nat)
    requires a <= m <= b <= |doc|
    ensures Newlines(doc, a, b) == Newlines(doc, a, m) + Newlines(doc, m, b)
    decreases b
  {
    if m < b {
      NewlinesSplit(doc, a, m, b - 1);
    }
  }

  lemma {:induction false} NoNewlines(doc: seq<Byte>, a: nat, b: nat)
    requires b <= |doc|
    ensures Newlines(doc, a, b) == 0 <==> forall k :: a <= k < b ==> doc[k] != NEWLINE
    decreases b
  {
    if a < b {
      NoNewlines(doc, a, b - 1);
    }
  }

  /** `at` is the start of a line. */
  predicate StartsLine(doc: seq<Byte>, at: nat)
    requires at <= |doc|
  {
    at == 0 || doc[at - 1] == NEWLINE
  }

  /** The document's counts, one for each block of `B` bytes. */
  ghost predicate CountsOk(doc: seq<Byte>, B: nat, counts: seq<nat>) {
    && (forall k :: 0 <= k < |counts| ==> CountAt(doc, B, counts, k))
    && |doc| <= |counts| * B
    && (|counts| > 0 ==> (|counts| - 1) * B < |doc|)
  }

  /** Where block `k` ends. */
  function BlockEnd(doc: seq<Byte>, B: nat, k: nat): nat {
    if k * B + B < |doc| then k * B + B else |doc|
  }

  predicate CountAt(doc: seq<Byte>, B: nat, counts: seq<nat>, k: nat)
    requires k < |counts|
  {
    counts[k] == Newlines(doc, k * B, BlockEnd(doc, B, k))
  }

  // ---------------------------------------------------------------------------------------------
  // Walking over lines one byte at a time

  /** Just after the `n`-th newline before `at`, counting backwards; 0 when there are fewer. */
  function BackLines(doc: seq<Byte>, at: nat, n: nat): (r: nat)
    requires at <= |doc| && n > 0
    ensures r <= at
  {
    if at == 0 then 0
    else if doc[at - 1] != NEWLINE then BackLines(doc, at - 1, n)
    else if n == 1 then at
    else BackLines(doc, at - 1, n - 1)
  }

  /** Just after the `n`-th newline from `at` on; the end of the document when there are fewer. */
  function ForwardLines(doc: seq<Byte>, at: nat, n: nat): (r: nat)
    requires at <= |doc|
    ensures at <= r <= |doc|
    decreases |doc| - at
  {
    if n == 0 then at
    else if at == |doc| then at
    else ForwardLines(doc, at + 1, if doc[at] == NEWLINE then n - 1 else n)
  }

  /** What `BackLines` means: a line start with `n - 1` newlines from there to `at`, or the document start. */
  lemma {:induction false} BackLinesIs(doc: seq<Byte>, at: nat, n: nat)
    requires at <= |doc| && n > 0
    ensures var s := BackLines(doc, at, n);
      && s <= at && StartsLine(doc, s)
      && (if s == 0 then Newlines(doc, 0, at) < n else Newlines(doc, s, at) == n - 1)
    decreases at
  {
    if at > 0 {
      var s := BackLines(doc, at, n);
      if doc[at - 1] != NEWLINE {
        BackLinesIs(doc, at - 1, n);
      } else if n > 1 {
        BackLinesIs(doc, at - 1, n - 1);
      }
    }
  }

  lemma {:induction false} ForwardLinesIs(doc: seq<Byte>, at: nat, n: nat)
    requires at <= |doc|
    ensures var e := ForwardLines(doc, at, n);
      && at <= e <= |doc|
      && Newlines(doc, at, e) <= n && (e < |doc| ==> Newlines(doc, at, e) == n)
      && (e > at && Newlines(doc, at, e) == n ==> doc[e - 1] == NEWLINE || e == |doc|)
    decreases |doc| - at
  {
    if n > 0 && at < |doc| {
      var m := if doc[at] == NEWLINE then n - 1 else n;
      ForwardLinesIs(doc, at + 1, m);
      var e := ForwardLines(doc, at + 1, m);
      NewlinesSplit(doc, at, at + 1, e);
      assert Newlines(doc, at, at + 1) == if doc[at] == NEWLINE then 1 else 0;
    }
  }

  lemma {:induction false} SkipBack(doc: seq<Byte>, a: nat, b: nat, n: nat)
    requires a <= b <= |doc| && n > 0 && Newlines(doc, a, b) == 0
    ensures BackLines(doc, b, n) == BackLines(doc, a, n)
    decreases b
  {
    if a < b {
      SkipBack(doc, a, b - 1, n);
    }
  }

  lemma {:induction false} SkipForward(doc: seq<Byte>, a: nat, b: nat, n: nat)
    requires a <= b <= |doc| && Newlines(doc, a, b) == 0
    ensures n > 0 ==> ForwardLines(doc, a, n) == ForwardLines(doc, b, n)
    decreases b - a
  {
    if a < b {
      NewlinesSplit(doc, a, a + 1, b);
      assert Newlines(doc, a, a + 1) == if doc[a] == NEWLINE then 1 else 0;
      SkipForward(doc, a + 1, b, n);
    }
  }

  // ---------------------------------------------------------------------------------------------
  // Blocks

  /** The block of a position is counted, and a part of a newline-free block has none either. */
  lemma BlockCounted(doc: seq<Byte>, B: nat, counts: seq<nat>, p: nat)
    requires B >= 1 && CountsOk(doc, B, counts) && p < |doc|
    ensures var k := BlockAt(p, B); k < |counts| && k * B <= p < BlockEnd(doc, B, k) <= |doc| && CountAt(doc, B, counts, k)
  {
    var k := BlockAt(p, B);
    BlockBounds(p, B);
    if k >= |counts| {
      MulMonotone(|counts|, k, B);
    }
  }

  lemma QuietPart(doc: seq<Byte>, B: nat, counts: seq<nat>, k: nat, a: nat, b: nat)
    requires k < |counts| && CountAt(doc, B, counts, k) && counts[k] == 0 && k * B <= a <= b <= BlockEnd(doc, B, k) <= |doc|
    ensures Newlines(doc, a, b) == 0
  {
    NewlinesSplit(doc, k * B, a, BlockEnd(doc, B, k));
    NewlinesSplit(doc, a, b, BlockEnd(doc, B, k));
  }

  // ---------------------------------------------------------------------------------------------
  // Extending a byte range to whole lines

  /** One block read backwards: stop just after the `needed`-th newline from its end. */
  method ScanBack(doc: seq<Byte>, blockStart: nat, start: nat, needed: nat) returns (at: nat, left: nat)
    requires blockStart <= start <= |doc| && needed > 0
    ensures at <= start && (left == 0 ==> at == BackLines(doc, start, needed))
    ensures left > 0 ==> at == blockStart && BackLines(doc, start, needed) == BackLines(doc, at, left)
  {
    var bytes := doc[blockStart..start];
    var i: nat := |bytes|;
    left := needed;
    while i > 0
      invariant i <= |bytes| && left > 0 && BackLines(doc, start, needed) == BackLines(doc, blockStart + i, left)
    {
      i := i - 1;
      if bytes[i] == NEWLINE {
        left := left - 1;
        if left == 0 {
          return blockStart + i + 1, 0;
        }
      }
    }
    at := blockStart;
  }

  method ExtendStart(doc: seq<Byte>, B: nat, counts: seq<nat>, from: nat, before: nat) returns (start: nat)
    requires B >= 1 && CountsOk(doc, B, counts) && from <= |doc|
    ensures start == BackLines(doc, from, before + 1)
  {
    start := from;
    var needed: nat := before + 1;
    hide Newlines, BackLines, CountsOk;
    while start > 0 && needed > 0
      invariant start <= |doc|
      invariant if needed == 0 then start == BackLines(doc, from, before + 1)
                else BackLines(doc, start, needed) == BackLines(doc, from, before + 1)
      decreases if needed == 0 then 0 else 1, start
    {
      var block := BlockAt(start - 1, B);
      BlockCounted(doc, B, counts, start - 1);
      var blockStart := block * B;
      if counts[block] == 0 {
        QuietPart(doc, B, counts, block, blockStart, start);
        SkipBack(doc, blockStart, start, needed);
        start := blockStart;
        continue;
      }
      start, needed := ScanBack(doc, blockStart, start, needed);
    }
    if needed > 0 {
      start := 0;
    }
  }

  method ScanForward(doc: seq<Byte>, end: nat, blockEnd: nat, needed: nat) returns (at: nat, left: nat)
    requires end <= blockEnd <= |doc| && needed > 0
    ensures end <= at <= blockEnd && (left == 0 ==> at == ForwardLines(doc, end, needed))
    ensures left > 0 ==> at == blockEnd && ForwardLines(doc, end, needed) == ForwardLines(doc, at, left)
  {
    var bytes := doc[end..blockEnd];
    left := needed;
    for i := 0 to |bytes|
      invariant left > 0 && ForwardLines(doc, end, needed) == ForwardLines(doc, end + i, left)
    {
      if bytes[i] == NEWLINE {
        left := left - 1;
        if left == 0 {
          return end + i + 1, 0;
        }
      }
    }
    at := blockEnd;
  }

  method ExtendEnd(doc: seq<Byte>, B: nat, counts: seq<nat>, to: nat, after: nat) returns (end: nat)
    requires B >= 1 && CountsOk(doc, B, counts) && to <= |doc|
    ensures end == ForwardLines(doc, to, if to > 0 && doc[to - 1] == NEWLINE then after else after + 1)
  {
    end := to;
    var endsLine := end > 0 && doc[end - 1..end] == [NEWLINE];
    var wanted := if endsLine then after else after + 1;
    var needed: nat := wanted;
    assert wanted == 0 ==> end == ForwardLines(doc, to, 0);
    hide Newlines, CountsOk;
    while end < |doc| && needed > 0
      invariant to <= end <= |doc|
      invariant if needed == 0 then end == ForwardLines(doc, to, wanted)
                else ForwardLines(doc, end, needed) == ForwardLines(doc, to, wanted)
      decreases if needed == 0 then 0 else 1, |doc| - end
    {
      var block := BlockAt(end, B);
      BlockCounted(doc, B, counts, end);
      var blockEnd := BlockEnd(doc, B, block);
      if counts[block] == 0 {
        QuietPart(doc, B, counts, block, end, blockEnd);
        SkipForward(doc, end, blockEnd, needed);
        end := blockEnd;
        continue;
      }
      end, needed := ScanForward(doc, end, blockEnd, needed);
    }
    if needed > 0 {
      end := |doc|;
    }
  }

  /**
   `extend_line_range`: the range grows to whole lines, with `before` more lines in front and `after`
   more behind, clipped at the ends of the document.
   */
  method ExtendLineRange(doc: seq<Byte>, B: nat, counts: seq<nat>, from: nat, to: nat, before: nat, after: nat)
    returns (start: nat, end: nat)
    requires B >= 1 && CountsOk(doc, B, counts) && from < to <= |doc|
    ensures start <= from < to <= end <= |doc|
    ensures StartsLine(doc, start) && (StartsLine(doc, end) || end == |doc|)
    ensures if start == 0 then Newlines(doc, start, from) <= before else Newlines(doc, start, from) == before
    ensures var last := if StartsLine(doc, to) then after else after + 1;
      if end == |doc| then Newlines(doc, to, end) <= last else Newlines(doc, to, end) == last
  {
    start := ExtendStart(doc, B, counts, from, before);
    end := ExtendEnd(doc, B, counts, to, after);
    BackLinesIs(doc, from, before + 1);
    ForwardLinesIs(doc, to, if StartsLine(doc, to) then after else after + 1);
  }

  // ---------------------------------------------------------------------------------------------
  // Line numbers

  /** The 1-based number of the line that `at` is on. */
  function LineNumber(doc: seq<Byte>, at: nat): nat
    requires at <= |doc|
  {
    Newlines(doc, 0, at) + 1
  }

  /** Where that line begins. */
  ghost predicate IsLineStart(doc: seq<Byte>, at: nat, start: nat) {
    start <= at <= |doc| && StartsLine(doc, start) && Newlines(doc, start, at) == 0
  }

  lemma LineStartUnique(doc: seq<Byte>, at: nat, a: nat, b: nat)
    requires IsLineStart(doc, at, a) && IsLineStart(doc, at, b)
    ensures a == b
  {
    NoNewlines(doc, a, at);
    NoNewlines(doc, b, at);
  }

  lemma {:induction false} SumOfCounts(doc: seq<Byte>, B: nat, counts: seq<nat>, k: nat)
    requires B >= 1 && CountsOk(doc, B, counts) && k <= |counts|
    ensures SumFirst(counts, k) == Newlines(doc, 0, if k * B < |doc| then k * B else |doc|)
  {
    if k > 0 {
      SumOfCounts(doc, B, counts, k - 1);
      assert CountAt(doc, B, counts, k - 1);
      MulMonotone(k - 1, |counts| - 1, B);
      NewlinesSplit(doc, 0, (k - 1) * B, BlockEnd(doc, B, k - 1));
    }
  }

  function SumFirst(counts: seq<nat>, k: nat): nat
    requires k <= |counts|
  {
    if k == 0 then 0 else SumFirst(counts, k - 1) + counts[k - 1]
  }

  method SumBefore(counts: seq<nat>, k: nat) returns (total: nat)
    requires k <= |counts|
    ensures total == SumFirst(counts, k)
  {
    total := 0;
    for i := 0 to k
      invariant total == SumFirst(counts, i)
    {
      total := total + counts[i];
    }
  }

  /** `rposition` of a newline in `doc[a..b]`: the position after it, and how many there were. */
  method LastNewline(doc: seq<Byte>, a: nat, b: nat) returns (count: nat, after: Option<nat>)
    requires a <= b <= |doc|
    ensures count == Newlines(doc, a, b)
    ensures after.None? <==> count == 0
    ensures after.Some? ==> a < after.value <= b && doc[after.value - 1] == NEWLINE && Newlines(doc, after.value, b) == 0
  {
    count, after := 0, None;
    for i := a to b
      invariant count == Newlines(doc, a, i) && (after.None? <==> count == 0)
      invariant after.Some? ==> a < after.value <= i && doc[after.value - 1] == NEWLINE && Newlines(doc, after.value, i) == 0
    {
      if doc[i] == NEWLINE {
        count, after := count + 1, Some(i + 1);
      }
    }
  }

  /** Search earlier blocks for the newline that starts the line, skipping blocks without one. */
  method EarlierLineStart(doc: seq<Byte>, B: nat, counts: seq<nat>, block: nat, offset: nat) returns (r: Result<nat>)
    requires B >= 1 && CountsOk(doc, B, counts) && block <= |counts| && block * B <= offset <= |doc|
    requires Newlines(doc, block * B, offset) == 0
    ensures r.Ok? && IsLineStart(doc, offset, r.value)
  {
    var previous: nat := block;
    while previous > 0
      invariant previous <= block && previous * B <= offset && Newlines(doc, previous * B, offset) == 0
    {
      previous := previous - 1;
      assert CountAt(doc, B, counts, previous);
      assert (previous + 1) * B == previous * B + B;
      assert BlockEnd(doc, B, previous) == previous * B + B || previous * B + B == |doc|;
      NewlinesSplit(doc, previous * B, previous * B + B, offset);
      if counts[previous] == 0 {
        continue;
      }
      var count, after := LastNewline(doc, previous * B, previous * B + B);
      if after.None? {
        return Err;
      }
      NewlinesSplit(doc, after.value, previous * B + B, offset);
      return Ok(after.value);
    }
    assert 0 * B == 0;
    return Ok(0);
  }

  /** `locate_line`: the line number and line start of an offset, from counts and a few block reads. */
  method LocateLine(doc: seq<Byte>, B: nat, counts: seq<nat>, offset: nat) returns (r: Result<(nat, nat)>)
    requires B >= 1 && CountsOk(doc, B, counts)
    ensures r.Ok? <==> offset <= |doc|
    ensures r.Ok? ==> r.value.0 == LineNumber(doc, offset) && IsLineStart(doc, offset, r.value.1)
  {
    if offset == 0 {
      return Ok((1, 0));
    }
    if offset > |doc| {
      return Err;
    }
    var block := BlockAt(offset, B);
    BlockBounds(offset, B);
    BlockOfOffset(doc, B, counts, offset);
    if block > |counts| {
      return Err;
    }
    var before := SumBefore(counts, block);
    SumOfCounts(doc, B, counts, block);
    var blockStart := block * B;
    NewlinesSplit(doc, 0, blockStart, offset);
    var within, after := 0, None;
    if block < |counts| && counts[block] > 0 {
      within, after := LastNewline(doc, blockStart, offset);
    } else {
      QuietTail(doc, B, counts, block, offset);
    }
    var line := before + within + 1;
    if after.Some? {
      return Ok((line, after.value));
    }
    var start := EarlierLineStart(doc, B, counts, block, offset);
    return Ok((line, start.value));
  }

  lemma BlockOfOffset(doc: seq<Byte>, B: nat, counts: seq<nat>, offset: nat)
    requires B >= 1 && CountsOk(doc, B, counts) && offset <= |doc|
    ensures BlockAt(offset, B) <= |counts|
  {
    BlockBounds(offset, B);
    if BlockAt(offset, B) > |counts| {
      MulMonotone(|counts| + 1, BlockAt(offset, B), B);
    }
  }

  lemma QuietTail(doc: seq<Byte>, B: nat, counts: seq<nat>, block: nat, offset: nat)
    requires B >= 1 && CountsOk(doc, B, counts) && offset <= |doc| && block == BlockAt(offset, B)
    requires block >= |counts| || counts[block] == 0
    ensures Newlines(doc, block * B, offset) == 0
  {
    BlockBounds(offset, B);
    if block < |counts| {
      assert CountAt(doc, B, counts, block);
      QuietPart(doc, B, counts, block, block * B, offset);
    } else {
      MulMonotone(|counts|, block, B);
    }
  }
}
