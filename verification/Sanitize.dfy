/**
 Line-terminator discipline (`sanitize_line_terminators` in crates/cli/src/patterns.rs,
 `can_match_newline` in crates/core/src/pattern.rs): what the sanitized pattern matches.
 */
module Sanitize {
  import opened Wrappers
  import opened Hirs

  /** A class range without the newline. */
  function WithoutNewline(range: (nat, nat)): seq<(nat, nat)> {
    if range.0 <= NEWLINE <= range.1 then
      (if range.0 < NEWLINE then [(range.0, NEWLINE - 1)] else []) + (if NEWLINE < range.1 then [(NEWLINE + 1, range.1)] else [])
    else [range]
  }

  /** Intersect a class with everything but the newline. */
  function StripRanges(ranges: seq<(nat, nat)>): seq<(nat, nat)> {
    if ranges == [] then [] else WithoutNewline(ranges[0]) + StripRanges(ranges[1..])
  }

  /** Strip newlines from classes; a literal newline is an error. */
  function Strip(h: Hir): Result<Hir>
    decreases h, 0
  {
    match h
    case Literal(bytes) => if NEWLINE in bytes then Err else Ok(h)
    case ClassBytes(ranges) => Ok(ClassBytes(StripRanges(ranges)))
    case ClassUnicode(ranges) => Ok(ClassUnicode(StripRanges(ranges)))
    case Repetition(min, max, sub) =>
      (match Strip(sub)
       case Err => Err
       case Ok(s) => Ok(Repetition(min, max, s)))
    case Capture(sub) =>
      (match Strip(sub)
       case Err => Err
       case Ok(s) => Ok(Capture(s)))
    case Concat(subs) =>
      (match StripEach(subs)
       case Err => Err
       case Ok(ss) => Ok(Concat(ss)))
    case Alternation(subs) =>
      (match StripEach(subs)
       case Err => Err
       case Ok(ss) => Ok(Alternation(ss)))
    case Empty => Ok(h)
    case Look(_) => Ok(h)
  }

  function StripEach(hs: seq<Hir>): (r: Result<seq<Hir>>)
    ensures r.Ok? ==> |r.value| == |hs| && forall k :: 0 <= k < |hs| ==> Strip(hs[k]) == Ok(r.value[k])
    decreases hs, 0
  {
    if hs == [] then Ok([])
    else
      match Strip(hs[0])
      case Err => Err
      case Ok(s) =>
        match StripEach(hs[1..])
        case Err => Err
        case Ok(ss) => Ok([s] + ss)
  }

  predicate CanMatchNewline(h: Hir)
    decreases h, 0
  {
    match h
    case Literal(bytes) => NEWLINE in bytes
    case ClassBytes(ranges) => InRanges(NEWLINE, ranges)
    case ClassUnicode(ranges) => InRanges(NEWLINE, ranges)
    case Repetition(_, _, sub) => CanMatchNewline(sub)
    case Capture(sub) => CanMatchNewline(sub)
    case Concat(subs) => AnyCanMatchNewline(subs)
    case Alternation(subs) => AnyCanMatchNewline(subs)
    case Empty => false
    case Look(_) => false
  }

  predicate AnyCanMatchNewline(hs: seq<Hir>)
    decreases hs, 0
  {
    hs != [] && (CanMatchNewline(hs[0]) || AnyCanMatchNewline(hs[1..]))
  }

  predicate NoNewline(t: seq<Byte>, i: nat, j: nat)
    requires i <= j <= |t|
  {
    forall k :: i <= k < j ==> t[k] != NEWLINE
  }

  lemma NoNewlineSlice(t: seq<Byte>, i: nat, j: nat, bytes: seq<Byte>)
    requires i <= j <= |t| && t[i..j] == bytes
    ensures NoNewline(t, i, j) <==> NEWLINE !in bytes
  {
    if NEWLINE in bytes {
      var m :| 0 <= m < |bytes| && bytes[m] == NEWLINE;
      assert t[i + m] == t[i..j][m];
    }
    forall k | i <= k < j ensures t[k] == bytes[k - i] {
      assert t[i..j][k - i] == t[k];
    }
  }

  lemma {:induction false} AnyCanAt(hs: seq<Hir>, k: nat)
    requires k < |hs| && !AnyCanMatchNewline(hs)
    ensures !CanMatchNewline(hs[k])
  {
    if k > 0 {
      AnyCanAt(hs[1..], k - 1);
    }
  }

  lemma {:induction false} NoneCan(hs: seq<Hir>)
    requires forall k :: 0 <= k < |hs| ==> !CanMatchNewline(hs[k])
    ensures !AnyCanMatchNewline(hs)
  {
    if hs != [] {
      NoneCan(hs[1..]);
    }
  }

  // ---------------------------------------------------------------------------------------------
  // The check is sound

  /** A pattern for which the check is false matches no text with a newline in it. */
  lemma {:induction false} MatchesNoNewline(h: Hir, look: LookAt, t: seq<Byte>, i: nat, j: nat)
    requires i <= j <= |t| && Matches(h, look, t, i, j) && !CanMatchNewline(h)
    ensures NoNewline(t, i, j)
    decreases h, 0, 0
  {
    match h
    case Literal(bytes) => NoNewlineSlice(t, i, j, bytes);
    case ClassBytes(ranges) =>
    case ClassUnicode(ranges) =>
      var c :| IsScalar(c) && InRanges(c, ranges) && t[i..j] == Utf8(c);
      NoNewlineSlice(t, i, j, Utf8(c));
    case Repetition(min, max, sub) =>
      var n: nat :| min <= n && (max.Some? ==> n <= max.value) && MatchesTimes(sub, n, look, t, i, j);
      TimesNoNewline(sub, n, look, t, i, j);
    case Capture(sub) => MatchesNoNewline(sub, look, t, i, j);
    case Concat(subs) => AllNoNewline(subs, look, t, i, j);
    case Alternation(subs) =>
      var k :| 0 <= k < |subs| && Matches(subs[k], look, t, i, j);
      AnyCanAt(subs, k);
      MatchesNoNewline(subs[k], look, t, i, j);
    case Empty =>
    case Look(_) =>
  }

  lemma {:induction false} TimesNoNewline(h: Hir, n: nat, look: LookAt, t: seq<Byte>, i: nat, j: nat)
    requires i <= j <= |t| && MatchesTimes(h, n, look, t, i, j) && !CanMatchNewline(h)
    ensures NoNewline(t, i, j)
    decreases h, 1, n
  {
    if n > 0 {
      var k :| i <= k <= j && Matches(h, look, t, i, k) && MatchesTimes(h, n - 1, look, t, k, j);
      MatchesNoNewline(h, look, t, i, k);
      TimesNoNewline(h, n - 1, look, t, k, j);
    }
  }

  lemma {:induction false} AllNoNewline(hs: seq<Hir>, look: LookAt, t: seq<Byte>, i: nat, j: nat)
    requires i <= j <= |t| && MatchesAll(hs, look, t, i, j) && !AnyCanMatchNewline(hs)
    ensures NoNewline(t, i, j)
    decreases hs, 0, 0
  {
    if hs != [] {
      var k :| i <= k <= j && Matches(hs[0], look, t, i, k) && MatchesAll(hs[1..], look, t, k, j);
      MatchesNoNewline(hs[0], look, t, i, k);
      AllNoNewline(hs[1..], look, t, k, j);
    }
  }

  // ---------------------------------------------------------------------------------------------
  // Sanitizing keeps exactly the newline-free matches

  lemma {:induction false} StripRangesIs(x: nat, ranges: seq<(nat, nat)>)
    ensures InRanges(x, StripRanges(ranges)) <==> InRanges(x, ranges) && x != NEWLINE
  {
    if ranges != [] {
      StripRangesIs(x, ranges[1..]);
      RangesJoin(x, WithoutNewline(ranges[0]), StripRanges(ranges[1..]));
      assert ranges == [ranges[0]] + ranges[1..];
      RangesJoin(x, [ranges[0]], ranges[1..]);
      OneRange(x, ranges[0]);
    }
  }

  lemma RangesJoin(x: nat, a: seq<(nat, nat)>, b: seq<(nat, nat)>)
    ensures InRanges(x, a + b) <==> InRanges(x, a) || InRanges(x, b)
  {
    if InRanges(x, a) {
      var k :| 0 <= k < |a| && a[k].0 <= x <= a[k].1;
      assert (a + b)[k] == a[k];
    }
    if InRanges(x, b) {
      var k :| 0 <= k < |b| && b[k].0 <= x <= b[k].1;
      assert (a + b)[|a| + k] == b[k];
    }
  }

  lemma OneRange(x: nat, range: (nat, nat))
    ensures InRanges(x, [range]) <==> range.0 <= x <= range.1
    ensures InRanges(x, WithoutNewline(range)) <==> range.0 <= x <= range.1 && x != NEWLINE
  {
    assert [range][0] == range;
    var r := WithoutNewline(range);
    if range.0 <= x <= range.1 && x != NEWLINE {
      assert x < NEWLINE ==> r[0].0 <= x <= r[0].1;
      assert x > NEWLINE ==> r[|r| - 1].0 <= x <= r[|r| - 1].1;
    }
  }

  /** A sanitized pattern passes the check. */
  lemma {:induction false} StrippedCannot(h: Hir)
    requires Strip(h).Ok?
    ensures !CanMatchNewline(Strip(h).value)
    decreases h, 0
  {
    match h
    case ClassBytes(ranges) => StripRangesIs(NEWLINE, ranges);
    case ClassUnicode(ranges) => StripRangesIs(NEWLINE, ranges);
    case Repetition(_, _, sub) => StrippedCannot(sub);
    case Capture(sub) => StrippedCannot(sub);
    case Concat(subs) => EachCannot(subs);
    case Alternation(subs) => EachCannot(subs);
    case _ =>
  }

  lemma {:induction false} EachCannot(hs: seq<Hir>)
    requires StripEach(hs).Ok?
    ensures !AnyCanMatchNewline(StripEach(hs).value)
    decreases hs, 0
  {
    forall k | 0 <= k < |hs| ensures !CanMatchNewline(StripEach(hs).value[k]) {
      StrippedCannot(hs[k]);
    }
    NoneCan(StripEach(hs).value);
  }

  /** The sanitized pattern matches exactly the newline-free matches of the original. */
  lemma {:induction false} StripExact(h: Hir, look: LookAt, t: seq<Byte>, i: nat, j: nat)
    requires i <= j <= |t| && Strip(h).Ok?
    ensures Matches(Strip(h).value, look, t, i, j) <==> Matches(h, look, t, i, j) && NoNewline(t, i, j)
    decreases h, 0, 0
  {
    match h
    case Literal(bytes) =>
      if t[i..j] == bytes {
        NoNewlineSlice(t, i, j, bytes);
      }
    case ClassBytes(ranges) =>
      if j == i + 1 {
        StripRangesIs(t[i], ranges);
      }
    case ClassUnicode(ranges) => UnicodeExact(ranges, t, i, j);
    case Repetition(min, max, sub) =>
      forall n: nat ensures MatchesTimes(Strip(sub).value, n, look, t, i, j) <==> MatchesTimes(sub, n, look, t, i, j) && NoNewline(t, i, j) {
        TimesExact(sub, n, look, t, i, j);
      }
    case Capture(sub) => StripExact(sub, look, t, i, j);
    case Concat(subs) => AllExact(subs, look, t, i, j);
    case Alternation(subs) =>
      forall k | 0 <= k < |subs|
        ensures Matches(StripEach(subs).value[k], look, t, i, j) <==> Matches(subs[k], look, t, i, j) && NoNewline(t, i, j)
      {
        StripExact(subs[k], look, t, i, j);
      }
    case Empty =>
    case Look(_) =>
  }

  lemma UnicodeExact(ranges: seq<(nat, nat)>, t: seq<Byte>, i: nat, j: nat)
    requires i <= j <= |t|
    ensures (exists c :: IsScalar(c) && InRanges(c, StripRanges(ranges)) && t[i..j] == Utf8(c)) <==>
            (exists c :: IsScalar(c) && InRanges(c, ranges) && t[i..j] == Utf8(c)) && NoNewline(t, i, j)
  {
    if c :| IsScalar(c) && InRanges(c, StripRanges(ranges)) && t[i..j] == Utf8(c) {
      StripRangesIs(c, ranges);
      NoNewlineSlice(t, i, j, Utf8(c));
    }
    if c :| IsScalar(c) && InRanges(c, ranges) && t[i..j] == Utf8(c) {
      StripRangesIs(c, ranges);
      NoNewlineSlice(t, i, j, Utf8(c));
    }
  }

  lemma {:induction false} TimesExact(h: Hir, n: nat, look: LookAt, t: seq<Byte>, i: nat, j: nat)
    requires i <= j <= |t| && Strip(h).Ok?
    ensures MatchesTimes(Strip(h).value, n, look, t, i, j) <==> MatchesTimes(h, n, look, t, i, j) && NoNewline(t, i, j)
    decreases h, 1, n
  {
    if n > 0 {
      var s := Strip(h).value;
      forall k | i <= k <= j
        ensures Matches(s, look, t, i, k) <==> Matches(h, look, t, i, k) && NoNewline(t, i, k)
        ensures MatchesTimes(s, n - 1, look, t, k, j) <==> MatchesTimes(h, n - 1, look, t, k, j) && NoNewline(t, k, j)
      {
        StripExact(h, look, t, i, k);
        TimesExact(h, n - 1, look, t, k, j);
      }
    }
  }

  lemma {:induction false} AllExact(hs: seq<Hir>, look: LookAt, t: seq<Byte>, i: nat, j: nat)
    requires i <= j <= |t| && StripEach(hs).Ok?
    ensures MatchesAll(StripEach(hs).value, look, t, i, j) <==> MatchesAll(hs, look, t, i, j) && NoNewline(t, i, j)
    decreases hs, 0, 0
  {
    if hs != [] {
      var ss := StripEach(hs).value;
      assert StripEach(hs[1..]).Ok? && ss == [Strip(hs[0]).value] + StripEach(hs[1..]).value;
      assert ss[1..] == StripEach(hs[1..]).value;
      forall k | i <= k <= j
        ensures Matches(ss[0], look, t, i, k) <==> Matches(hs[0], look, t, i, k) && NoNewline(t, i, k)
        ensures MatchesAll(ss[1..], look, t, k, j) <==> MatchesAll(hs[1..], look, t, k, j) && NoNewline(t, k, j)
      {
        StripExact(hs[0], look, t, i, k);
        AllExact(hs[1..], look, t, k, j);
      }
    }
  }

  /** Sanitizing fails exactly on a literal newline somewhere in the pattern. */
  predicate HasNewlineLiteral(h: Hir)
    decreases h, 0
  {
    match h
    case Literal(bytes) => NEWLINE in bytes
    case Repetition(_, _, sub) => HasNewlineLiteral(sub)
    case Capture(sub) => HasNewlineLiteral(sub)
    case Concat(subs) => AnyNewlineLiteral(subs)
    case Alternation(subs) => AnyNewlineLiteral(subs)
    case _ => false
  }

  predicate AnyNewlineLiteral(hs: seq<Hir>)
    decreases hs, 0
  {
    hs != [] && (HasNewlineLiteral(hs[0]) || AnyNewlineLiteral(hs[1..]))
  }

  lemma {:induction false} StripFails(h: Hir)
    ensures Strip(h).Err? <==> HasNewlineLiteral(h)
    decreases h, 0
  {
    match h
    case Repetition(_, _, sub) => StripFails(sub);
    case Capture(sub) => StripFails(sub);
    case Concat(subs) => EachFails(subs);
    case Alternation(subs) => EachFails(subs);
    case _ =>
  }

  lemma {:induction false} EachFails(hs: seq<Hir>)
    ensures StripEach(hs).Err? <==> AnyNewlineLiteral(hs)
    decreases hs, 0
  {
    if hs != [] {
      StripFails(hs[0]);
      EachFails(hs[1..]);
    }
  }
}
