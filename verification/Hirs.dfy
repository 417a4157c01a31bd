/**
 The regex syntax tree the planner and the sanitizer walk (`regex_syntax::hir::Hir`), with its
 meaning as a relation between a text and a pair of positions.
 */
module Hirs {
  import opened Wrappers

  datatype Hir =
    | Empty
    | Literal(bytes: seq<Byte>)
    | ClassBytes(byteRanges: seq<(nat, nat)>)
    | ClassUnicode(charRanges: seq<(nat, nat)>)
    | Look(assertion: nat)
    | Repetition(min: nat, max: Option<nat>, sub: Hir)
    | Capture(sub: Hir)
    | Concat(subs: seq<Hir>)
    | Alternation(subs: seq<Hir>)

  /** Whether a zero-width assertion holds at a position of a text. */
  type LookAt = (nat, seq<Byte>, nat) -> bool

  predicate InRanges(x: nat, ranges: seq<(nat, nat)>) {
    exists k :: 0 <= k < |ranges| && ranges[k].0 <= x <= ranges[k].1
  }

  predicate IsScalar(c: nat) { c < 0xD800 || 0xE000 <= c < 0x110000 }

  /** UTF-8, section 3 of RFC 3629. */
  function Utf8(c: nat): (bytes: seq<Byte>)
    requires IsScalar(c)
    ensures 1 <= |bytes| <= 4
    ensures NEWLINE in bytes <==> c == NEWLINE
  {
    if c < 0x80 then [c]
    else if c < 0x800 then [0xC0 + c / 64, 0x80 + c % 64]
    else if c < 0x10000 then [0xE0 + c / 4096, 0x80 + c / 64 % 64, 0x80 + c % 64]
    else [0xF0 + c / 262144, 0x80 + c / 4096 % 64, 0x80 + c / 64 % 64, 0x80 + c % 64]
  }

  /** `h` matches exactly the stretch `t[i..j]`, in the context of the whole of `t`. */
  ghost predicate Matches(h: Hir, look: LookAt, t: seq<Byte>, i: nat, j: nat)
    requires i <= j <= |t|
    decreases h, 0
  {
    match h
    case Empty => i == j
    case Literal(bytes) => t[i..j] == bytes
    case ClassBytes(ranges) => j == i + 1 && InRanges(t[i], ranges)
    case ClassUnicode(ranges) => exists c :: IsScalar(c) && InRanges(c, ranges) && t[i..j] == Utf8(c)
    case Look(assertion) => i == j && look(assertion, t, i)
    case Repetition(min, max, sub) =>
      exists n: nat :: min <= n && (max.Some? ==> n <= max.value) && MatchesTimes(sub, n, look, t, i, j)
    case Capture(sub) => Matches(sub, look, t, i, j)
    case Concat(subs) => MatchesAll(subs, look, t, i, j)
    case Alternation(subs) => exists k :: 0 <= k < |subs| && Matches(subs[k], look, t, i, j)
  }

  /** `n` consecutive matches of `h`. */
  ghost predicate MatchesTimes(h: Hir, n: nat, look: LookAt, t: seq<Byte>, i: nat, j: nat)
    requires i <= j <= |t|
    decreases h, n + 1
  {
    if n == 0 then i == j
    else exists k :: i <= k <= j && Matches(h, look, t, i, k) && MatchesTimes(h, n - 1, look, t, k, j)
  }

  /** Consecutive matches of the children, in order. */
  ghost predicate MatchesAll(hs: seq<Hir>, look: LookAt, t: seq<Byte>, i: nat, j: nat)
    requires i <= j <= |t|
    decreases hs, 0
  {
    if hs == [] then i == j
    else exists k :: i <= k <= j && Matches(hs[0], look, t, i, k) && MatchesAll(hs[1..], look, t, k, j)
  }
}
