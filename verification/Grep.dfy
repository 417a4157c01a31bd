/** Line and context emission (`grep_matches` and `has_line_match` in crates/core/src/grep.rs). */
module Grep {
  import opened Wrappers
  import opened Lines

  /** A match of the pattern program, as byte offsets into the text. */
  datatype Found = Found(start: nat, end: nat)

  datatype SubMatch = SubMatch(start: nat, end: nat)

  datatype LineKind = Match | Context

  datatype LineEvent = LineEvent(line: nat, kind: LineKind, offset: nat, text: seq<Byte>, submatches: seq<SubMatch>)

  datatype MatchOptions = MatchOptions(before: nat, after: nat, maxCount: Option<nat>)

  /** Matches are sorted and do not overlap, as the pattern program reports them. */
  ghost predicate Ordered(found: seq<Found>, len: nat) {
    && (forall i :: 0 <= i < |found| ==> found[i].start <= found[i].end <= len)
    && (forall i, j :: 0 <= i < j < |found| ==> found[i].end <= found[j].start)
  }

  // ---------------------------------------------------------------------------------------------
  // Lines of a text

  /** A line's content ends at its newline, its span includes it. */
  datatype Line = Line(start: nat, contentEnd: nat, spanEnd: nat)

  function ContentEnd(text: seq<Byte>, pos: nat): (r: nat)
    requires pos <= |text|
    ensures pos <= r <= |text| && (r < |text| ==> text[r] == NEWLINE)
    ensures forall k :: pos <= k < r ==> text[k] != NEWLINE
    decreases |text| - pos
  {
    if pos == |text| || text[pos] == NEWLINE then pos else ContentEnd(text, pos + 1)
  }

  function LineFrom(text: seq<Byte>, pos: nat): Line
    requires pos < |text|
  {
    var end := ContentEnd(text, pos);
    Line(pos, end, if end < |text| then end + 1 else end)
  }

  function LinesFrom(text: seq<Byte>, pos: nat): (r: seq<Line>)
    requires pos <= |text|
    ensures pos < |text| <==> r != []
    ensures r != [] ==> r[0] == LineFrom(text, pos)
    decreases |text| - pos
  {
    if pos == |text| then [] else [LineFrom(text, pos)] + LinesFrom(text, LineFrom(text, pos).spanEnd)
  }

  ghost predicate GoodLine(text: seq<Byte>, line: Line) {
    line.start < |text| && line == LineFrom(text, line.start)
  }

  /** Lines cover the text in order, each starting where the previous one's span ended. */
  lemma {:induction false} LinesAt(text: seq<Byte>, pos: nat, k: nat)
    requires pos <= |text| && k < |LinesFrom(text, pos)|
    ensures var ls := LinesFrom(text, pos);
      && pos <= ls[k].start && GoodLine(text, ls[k])
      && LinesFrom(text, ls[k].start) == ls[k..]
      && LinesFrom(text, ls[k].spanEnd) == ls[k + 1..]
      && (k > 0 ==> ls[k].start == ls[k - 1].spanEnd && ls[k - 1].spanEnd == ls[k - 1].contentEnd + 1)
    decreases |text| - pos
  {
    var ls := LinesFrom(text, pos);
    var next := LineFrom(text, pos).spanEnd;
    if k > 0 {
      LinesAt(text, next, k - 1);
      assert ls[1..] == LinesFrom(text, next);
      if k == 1 {
        assert ls[1].start == next;
      }
    }
  }

  lemma {:induction false} LinesApart(text: seq<Byte>, j: nat, k: nat)
    requires j < k < |LinesFrom(text, 0)|
    ensures LinesFrom(text, 0)[j].contentEnd < LinesFrom(text, 0)[k].start
    decreases k
  {
    LinesAt(text, 0, k);
    LinesAt(text, 0, k - 1);
    if j < k - 1 {
      LinesApart(text, j, k - 1);
    }
  }

  /** Line `k` of the text really is line `k + 1`: exactly `k` newlines come before its start. */
  lemma {:induction false} LineIndexIsNumber(text: seq<Byte>, k: nat)
    requires k < |LinesFrom(text, 0)|
    ensures LinesFrom(text, 0)[k].start <= |text|
    ensures LineNumber(text, LinesFrom(text, 0)[k].start) == k + 1 && StartsLine(text, LinesFrom(text, 0)[k].start)
  {
    LinesAt(text, 0, k);
    if k > 0 {
      LineIndexIsNumber(text, k - 1);
      LinesAt(text, 0, k - 1);
      var prev := LinesFrom(text, 0)[k - 1];
      hide LinesFrom;
      NoNewlines(text, prev.start, prev.contentEnd);
      NewlinesSplit(text, 0, prev.start, prev.contentEnd);
    } else {
      assert LinesFrom(text, 0)[0].start == 0;
    }
  }

  // ---------------------------------------------------------------------------------------------
  // What should be printed

  predicate OnLine(line: Line, m: Found) {
    line.start <= m.start <= line.contentEnd
  }

  /** A match clamped to the line's content. */
  function Clamp(line: Line, m: Found): SubMatch
    requires OnLine(line, m)
  {
    var end := if m.end < line.contentEnd then m.end else line.contentEnd;
    SubMatch(m.start - line.start, (if end < m.start then m.start else end) - line.start)
  }

  /** The matches among the first `n` that start on the line. */
  function SubMatches(line: Line, found: seq<Found>, n: nat): seq<SubMatch>
    requires n <= |found|
  {
    if n == 0 then []
    else SubMatches(line, found, n - 1) + (if OnLine(line, found[n - 1]) then [Clamp(line, found[n - 1])] else [])
  }

  predicate Hit(line: Line, found: seq<Found>) {
    exists i :: 0 <= i < |found| && OnLine(line, found[i])
  }

  lemma {:induction false} SubMatchesNonempty(line: Line, found: seq<Found>, n: nat)
    requires n <= |found|
    ensures SubMatches(line, found, n) != [] <==> exists i :: 0 <= i < n && OnLine(line, found[i])
  {
    if n > 0 {
      SubMatchesNonempty(line, found, n - 1);
    }
  }

  /** Number of lines with a match among the first `n`. */
  function Hits(lines: seq<Line>, found: seq<Found>, n: nat): nat
    requires n <= |lines|
  {
    if n == 0 then 0 else Hits(lines, found, n - 1) + if Hit(lines[n - 1], found) then 1 else 0
  }

  /** A line that counts as a match: it has one and the cap is not yet used up. */
  predicate Selected(lines: seq<Line>, found: seq<Found>, o: MatchOptions, k: nat) {
    k < |lines| && Hit(lines[k], found) && (o.maxCount.Some? ==> Hits(lines, found, k) < o.maxCount.value)
  }

  /** Line `k` lies in the context window of selected line `j`. */
  predicate InWindow(o: MatchOptions, k: nat, j: nat) {
    k <= j + o.after && j <= k + o.before
  }

  /** Line `k` is in the window of a line selected among the first `n`. */
  ghost predicate Shown(lines: seq<Line>, found: seq<Found>, o: MatchOptions, n: nat, k: nat) {
    exists j: nat :: j < n && Selected(lines, found, o, j) && InWindow(o, k, j)
  }

  function Event(text: seq<Byte>, lines: seq<Line>, found: seq<Found>, o: MatchOptions, k: nat): LineEvent
    requires k < |lines| && lines[k].start <= lines[k].spanEnd <= |text|
  {
    LineEvent(k + 1, if Selected(lines, found, o, k) then Match else Context, lines[k].start,
              text[lines[k].start..lines[k].spanEnd], SubMatches(lines[k], found, |found|))
  }

  ghost predicate LinesOk(text: seq<Byte>, lines: seq<Line>) {
    forall k :: 0 <= k < |lines| ==> lines[k].start <= lines[k].spanEnd <= |text|
  }

  /** The shown lines among the first `m`, when the first `n` lines have been considered. */
  ghost function Printed(text: seq<Byte>, lines: seq<Line>, found: seq<Found>, o: MatchOptions, n: nat, m: nat): seq<LineEvent>
    requires LinesOk(text, lines) && m <= |lines|
  {
    if m == 0 then []
    else
      Printed(text, lines, found, o, n, m - 1) +
      (if Shown(lines, found, o, n, m - 1) then [Event(text, lines, found, o, m - 1)] else [])
  }

  /** The whole output: every line in the window of a selected line, in order. */
  ghost function Output(text: seq<Byte>, found: seq<Found>, o: MatchOptions): seq<LineEvent> {
    var lines := LinesFrom(text, 0);
    AllLinesOk(text);
    Printed(text, lines, found, o, |lines|, |lines|)
  }

  lemma AllLinesOk(text: seq<Byte>)
    ensures LinesOk(text, LinesFrom(text, 0))
  {
    forall k | 0 <= k < |LinesFrom(text, 0)| ensures LinesFrom(text, 0)[k].start <= LinesFrom(text, 0)[k].spanEnd <= |text| {
      LinesAt(text, 0, k);
    }
  }

  lemma {:induction false} PrintedSame(text: seq<Byte>, lines: seq<Line>, found: seq<Found>, o: MatchOptions, n: nat, n': nat, m: nat)
    requires LinesOk(text, lines) && m <= |lines|
    requires forall k :: 0 <= k < m ==> (Shown(lines, found, o, n, k) <==> Shown(lines, found, o, n', k))
    ensures Printed(text, lines, found, o, n, m) == Printed(text, lines, found, o, n', m)
  {
    hide Shown, Event;
    if m > 0 {
      PrintedSame(text, lines, found, o, n, n', m - 1);
    }
  }

  /** Emitted lines carry strictly increasing numbers, each the line's own. */
  lemma {:induction false} PrintedAscends(text: seq<Byte>, lines: seq<Line>, found: seq<Found>, o: MatchOptions, n: nat, m: nat)
    requires LinesOk(text, lines) && m <= |lines|
    ensures forall i :: 0 <= i < |Printed(text, lines, found, o, n, m)| ==> 0 < Printed(text, lines, found, o, n, m)[i].line <= m
    ensures forall i, j :: 0 <= i < j < |Printed(text, lines, found, o, n, m)| ==>
              Printed(text, lines, found, o, n, m)[i].line < Printed(text, lines, found, o, n, m)[j].line
  {
    hide Shown;
    if m > 0 {
      PrintedAscends(text, lines, found, o, n, m - 1);
    }
  }

  // ---------------------------------------------------------------------------------------------
  // What an event says

  /** A line's bytes without its newline. */
  function ContentLen(line: seq<Byte>): nat {
    if line != [] && line[|line| - 1] == NEWLINE then |line| - 1 else |line|
  }

  /** The matches among the first `n` that start in `[lo, hi]`, in order. */
  function StartingIn(found: seq<Found>, lo: nat, hi: nat, n: nat): (r: seq<Found>)
    requires n <= |found|
    ensures forall m :: m in r ==> lo <= m.start <= hi && m in found
    ensures forall i :: 0 <= i < n && lo <= found[i].start <= hi ==> found[i] in r
  {
    if n == 0 then []
    else
      var m := found[n - 1];
      StartingIn(found, lo, hi, n - 1) + (if lo <= m.start <= hi then [m] else [])
  }

  /** `s` is the match `m`, told from the line's start and cut at the line's content. */
  predicate Locates(s: SubMatch, m: Found, offset: nat, contentEnd: nat) {
    && offset + s.start == m.start
    && (m.end <= contentEnd ==> offset + s.end == m.end)
    && (m.end > contentEnd && m.start <= contentEnd ==> offset + s.end == contentEnd)
  }

  /** The submatches of an event are the matches that start on its line, one for one and in order. */
  predicate Pictures(subs: seq<SubMatch>, starting: seq<Found>, offset: nat, contentEnd: nat) {
    && |subs| == |starting|
    && forall i :: 0 <= i < |subs| ==> Locates(subs[i], starting[i], offset, contentEnd)
  }

  lemma {:induction false} SubMatchesPicture(line: Line, found: seq<Found>, n: nat)
    requires n <= |found| && forall i :: 0 <= i < |found| ==> found[i].start <= found[i].end
    ensures Pictures(SubMatches(line, found, n), StartingIn(found, line.start, line.contentEnd, n), line.start, line.contentEnd)
  {
    if n > 0 {
      SubMatchesPicture(line, found, n - 1);
      var subs, starting, m := SubMatches(line, found, n - 1), StartingIn(found, line.start, line.contentEnd, n - 1), found[n - 1];
      if OnLine(line, m) {
        assert SubMatches(line, found, n) == subs + [Clamp(line, m)];
        assert StartingIn(found, line.start, line.contentEnd, n) == starting + [m];
        ClampLocates(line, m);
        hide *;
        PictureGrows(subs, starting, Clamp(line, m), m, line.start, line.contentEnd);
      }
    }
  }

  lemma ClampLocates(line: Line, m: Found)
    requires OnLine(line, m) && m.start <= m.end
    ensures Locates(Clamp(line, m), m, line.start, line.contentEnd)
  {
  }

  lemma PictureGrows(subs: seq<SubMatch>, starting: seq<Found>, s: SubMatch, m: Found, offset: nat, contentEnd: nat)
    requires Pictures(subs, starting, offset, contentEnd) && Locates(s, m, offset, contentEnd)
    ensures Pictures(subs + [s], starting + [m], offset, contentEnd)
  {
    hide Locates;
  }

  /** A printed event comes from one of the lines. */
  lemma {:induction false} PrintedFrom(text: seq<Byte>, lines: seq<Line>, found: seq<Found>, o: MatchOptions, n: nat, m: nat, i: nat) returns (k: nat)
    requires LinesOk(text, lines) && m <= |lines| && i < |Printed(text, lines, found, o, n, m)|
    ensures k < m && Printed(text, lines, found, o, n, m)[i] == Event(text, lines, found, o, k) && Shown(lines, found, o, n, k)
  {
    hide Shown, Event;
    if i < |Printed(text, lines, found, o, n, m - 1)| {
      k := PrintedFrom(text, lines, found, o, n, m - 1, i);
    } else {
      k := m - 1;
    }
  }

  /** The content of a line, told from its bytes. */
  lemma ContentIs(text: seq<Byte>, line: Line)
    requires GoodLine(text, line)
    ensures line.start <= line.contentEnd <= line.spanEnd <= |text|
    ensures line.start + ContentLen(text[line.start..line.spanEnd]) == line.contentEnd
  {
    var bytes := text[line.start..line.spanEnd];
    assert bytes[|bytes| - 1] == text[line.spanEnd - 1];
  }

  /** The event names a whole line: its number, its place and its bytes. */
  ghost predicate NamesLine(text: seq<Byte>, e: LineEvent) {
    var end := e.offset + |e.text|;
    && e.text != [] && end <= |text| && e.text == text[e.offset..end]
    && StartsLine(text, e.offset) && e.line == LineNumber(text, e.offset)
    && (end == |text| || StartsLine(text, end)) && NEWLINE !in e.text[..ContentLen(e.text)]
  }

  /** The event's submatches are exactly the matches that start on its line. */
  ghost predicate NamesMatches(found: seq<Found>, e: LineEvent) {
    var end := e.offset + ContentLen(e.text);
    && (forall i :: 0 <= i < |e.submatches| ==> e.submatches[i].start <= e.submatches[i].end <= |e.text|)
    && Pictures(e.submatches, StartingIn(found, e.offset, end, |found|), e.offset, end)
    && (e.kind.Match? ==> e.submatches != [])
  }

  /** What every event of the output tells. */
  ghost predicate TellsTruth(text: seq<Byte>, found: seq<Found>, e: LineEvent) {
    NamesLine(text, e) && NamesMatches(found, e)
  }

  lemma EventTellsTruth(text: seq<Byte>, found: seq<Found>, o: MatchOptions, i: nat)
    requires Ordered(found, |text|) && i < |Output(text, found, o)|
    ensures TellsTruth(text, found, Output(text, found, o)[i])
  {
    var lines := LinesFrom(text, 0);
    AllLinesOk(text);
    var k := PrintedFrom(text, lines, found, o, |lines|, |lines|, i);
    LineTellsTruth(text, found, o, k);
  }

  lemma LineTellsTruth(text: seq<Byte>, found: seq<Found>, o: MatchOptions, k: nat)
    requires Ordered(found, |text|) && k < |LinesFrom(text, 0)| && LinesOk(text, LinesFrom(text, 0))
    ensures TellsTruth(text, found, Event(text, LinesFrom(text, 0), found, o, k))
  {
    hide *;
    var lines := LinesFrom(text, 0);
    LineIsGood(text, k);
    LineIndexIsNumber(text, k);
    ContentIs(text, lines[k]);
    AllForward(found, |text|);
    SubMatchesPicture(lines[k], found, |found|);
    SubMatchesNonempty(lines[k], found, |found|);
    HitIs(lines[k], found);
    NoNewlineInContent(text, lines[k]);
    EventIs(text, lines, found, o, k);
    SubsInside(SubMatches(lines[k], found, |found|), found, lines[k].start, lines[k].contentEnd, |text|);
    var e := Event(text, lines, found, o, k);
    LineNotEmpty(text, lines[k]);
    LineNamed(text, e, lines[k].start, lines[k].contentEnd, lines[k].spanEnd);
    MatchesNamed(found, e, lines[k].start, lines[k].contentEnd);
    BothTrue(text, found, e);
  }

  lemma LineIsGood(text: seq<Byte>, k: nat)
    requires k < |LinesFrom(text, 0)|
    ensures GoodLine(text, LinesFrom(text, 0)[k])
  {
    LinesAt(text, 0, k);
  }

  lemma AllForward(found: seq<Found>, len: nat)
    requires Ordered(found, len)
    ensures forall i :: 0 <= i < |found| ==> found[i].start <= found[i].end
  {
  }

  lemma HitIs(line: Line, found: seq<Found>)
    ensures Hit(line, found) <==> exists i :: 0 <= i < |found| && OnLine(line, found[i])
  {
  }

  /** Every submatch lies in the content. */
  lemma SubsInside(subs: seq<SubMatch>, found: seq<Found>, lo: nat, hi: nat, len: nat)
    requires Ordered(found, len) && lo <= hi && Pictures(subs, StartingIn(found, lo, hi, |found|), lo, hi)
    ensures forall i :: 0 <= i < |subs| ==> subs[i].start <= subs[i].end <= hi - lo
  {
    hide StartingIn;
    forall i | 0 <= i < |subs| ensures subs[i].start <= subs[i].end <= hi - lo {
      var m := StartingIn(found, lo, hi, |found|)[i];
      assert Locates(subs[i], m, lo, hi) && m in found;
    }
  }

  lemma EventIs(text: seq<Byte>, lines: seq<Line>, found: seq<Found>, o: MatchOptions, k: nat)
    requires k < |lines| && lines[k].start <= lines[k].spanEnd <= |text|
    ensures var e := Event(text, lines, found, o, k);
      && e.line == k + 1 && e.offset == lines[k].start && e.text == text[lines[k].start..lines[k].spanEnd]
      && e.submatches == SubMatches(lines[k], found, |found|) && (e.kind.Match? ==> Hit(lines[k], found))
  {
    hide SubMatches;
  }

  lemma LineNotEmpty(text: seq<Byte>, line: Line)
    requires GoodLine(text, line)
    ensures line.start < line.spanEnd
  {
  }

  lemma LineNamed(text: seq<Byte>, e: LineEvent, start: nat, contentEnd: nat, end: nat)
    requires start < end <= |text| && start <= contentEnd <= end && e.offset == start && e.text == text[start..end]
    requires start + ContentLen(text[start..end]) == contentEnd
    requires StartsLine(text, start) && LineNumber(text, start) == e.line && (end == |text| || text[end - 1] == NEWLINE)
    requires NEWLINE !in text[start..end][..contentEnd - start]
    ensures NamesLine(text, e)
  {
    hide LineNumber, ContentLen;
  }

  lemma MatchesNamed(found: seq<Found>, e: LineEvent, start: nat, contentEnd: nat)
    requires start <= contentEnd && e.offset == start && start + ContentLen(e.text) == contentEnd
    requires Pictures(e.submatches, StartingIn(found, start, contentEnd, |found|), start, contentEnd)
    requires forall i :: 0 <= i < |e.submatches| ==> e.submatches[i].start <= e.submatches[i].end <= contentEnd - start
    requires e.kind.Match? ==> e.submatches != []
    ensures NamesMatches(found, e)
  {
    assert ContentLen(e.text) <= |e.text|;
    hide Pictures, StartingIn, ContentLen;
  }

  lemma BothTrue(text: seq<Byte>, found: seq<Found>, e: LineEvent)
    requires NamesLine(text, e) && NamesMatches(found, e)
    ensures TellsTruth(text, found, e)
  {
  }

  lemma NoNewlineInContent(text: seq<Byte>, line: Line)
    requires GoodLine(text, line)
    ensures line.start <= line.contentEnd <= line.spanEnd <= |text|
    ensures NEWLINE !in text[line.start..line.spanEnd][..line.contentEnd - line.start]
    ensures line.spanEnd == |text| || text[line.spanEnd - 1] == NEWLINE
  {
    var content := text[line.start..line.spanEnd][..line.contentEnd - line.start];
    forall i | 0 <= i < |content| ensures content[i] != NEWLINE {
      assert content[i] == text[line.start + i];
    }
  }

  // ---------------------------------------------------------------------------------------------
  // The loop

  datatype Pending = Pending(line: nat, start: nat, spanEnd: nat)

  /** The lines `[lo, k)` as the ring remembers them. */
  function RingOf(lines: seq<Line>, lo: nat, k: nat): (r: seq<Pending>)
    requires k <= |lines|
    ensures |r| == if lo <= k then k - lo else 0
    ensures forall i :: 0 <= i < |r| ==> r[i] == Pending(lo + i + 1, lines[lo + i].start, lines[lo + i].spanEnd)
  {
    if lo >= k then [] else RingOf(lines, lo, k - 1) + [Pending(k, lines[k - 1].start, lines[k - 1].spanEnd)]
  }

  function RingStart(emitted: nat, before: nat, k: nat): nat {
    if k < emitted + before then emitted else k - before
  }

  /**
   After `k` lines: the output holds the shown lines below `emitted`; the rest are not shown yet and
   the ring remembers the last `before` of them; the window of the last selected line still has
   `after` lines to go.
   */
  ghost predicate LoopInv(text: seq<Byte>, lines: seq<Line>, found: seq<Found>, o: MatchOptions,
                          k: nat, out: seq<LineEvent>, emitted: nat, ring: seq<Pending>, after: nat)
  {
    && LinesOk(text, lines) && emitted <= k <= |lines|
    && out == Printed(text, lines, found, o, k, emitted)
    && (forall i: nat :: emitted <= i ==> (Shown(lines, found, o, k, i) <==> k <= i < k + after))
    && (forall i: nat :: i < emitted && !Shown(lines, found, o, k, i) ==> i + o.before < k)
    && (after > 0 ==> emitted == k)
    && ring == RingOf(lines, RingStart(emitted, o.before, k), k)
  }

  /** Considering one more line changes what is shown only by that line's window. */
  lemma ShownNext(lines: seq<Line>, found: seq<Found>, o: MatchOptions, k: nat, i: nat)
    ensures Shown(lines, found, o, k + 1, i) <==> Shown(lines, found, o, k, i) || (Selected(lines, found, o, k) && InWindow(o, i, k))
  {
    hide Selected, InWindow;
    if Selected(lines, found, o, k) && InWindow(o, i, k) {
      assert Shown(lines, found, o, k + 1, i);
    }
  }

  lemma {:induction false} PrintedQuiet(text: seq<Byte>, lines: seq<Line>, found: seq<Found>, o: MatchOptions, n: nat, a: nat, b: nat)
    requires LinesOk(text, lines) && a <= b <= |lines|
    requires forall k :: a <= k < b ==> !Shown(lines, found, o, n, k)
    ensures Printed(text, lines, found, o, n, b) == Printed(text, lines, found, o, n, a)
    decreases b
  {
    hide Shown, Event;
    if a < b {
      PrintedQuiet(text, lines, found, o, n, a, b - 1);
    }
  }

  /** The line is selected: print the remembered lines, then the line. */
  lemma SelectedStep(text: seq<Byte>, lines: seq<Line>, found: seq<Found>, o: MatchOptions,
                     k: nat, out: seq<LineEvent>, emitted: nat, ring: seq<Pending>, after: nat, drained: seq<LineEvent>)
    requires LoopInv(text, lines, found, o, k, out, emitted, ring, after) && k < |lines| && Selected(lines, found, o, k)
    requires drained == Printed(text, lines, found, o, k + 1, k)
    ensures LoopInv(text, lines, found, o, k + 1, drained + [Event(text, lines, found, o, k)], k + 1, [], o.after)
  {
    hide Selected, Event;
    var n := k + 1;
    forall i: nat ensures Shown(lines, found, o, n, i) <==> Shown(lines, found, o, k, i) || InWindow(o, i, k) {
      ShownNext(lines, found, o, k, i);
    }
    hide Shown;
    assert RingOf(lines, RingStart(k + 1, o.before, k + 1), k + 1) == [];
    assert InWindow(o, k, k);
    forall i: nat | k < i ensures InWindow(o, i, k) <==> i < k + 1 + o.after {
    }
  }

  /** The remembered lines become shown, as context without submatches. */
  lemma DrainOne(text: seq<Byte>, lines: seq<Line>, found: seq<Found>, o: MatchOptions,
                 k: nat, out: seq<LineEvent>, emitted: nat, ring: seq<Pending>, after: nat, i: nat)
    requires LoopInv(text, lines, found, o, k, out, emitted, ring, after) && k < |lines| && Selected(lines, found, o, k)
    requires RingStart(emitted, o.before, k) <= i < k
    ensures Shown(lines, found, o, k + 1, i)
    ensures Event(text, lines, found, o, i) == LineEvent(i + 1, Context, lines[i].start, text[lines[i].start..lines[i].spanEnd], [])
  {
    ShownNext(lines, found, o, k, i);
    assert !Shown(lines, found, o, k, i);
    NotShownNotHit(lines, found, o, k, i);
    SubMatchesNonempty(lines[i], found, |found|);
  }

  lemma {:induction false} HitsGrow(lines: seq<Line>, found: seq<Found>, i: nat, k: nat)
    requires i <= k <= |lines|
    ensures Hits(lines, found, i) <= Hits(lines, found, k)
    decreases k
  {
    if i < k {
      HitsGrow(lines, found, i, k - 1);
    }
  }

  lemma NotShownNotHit(lines: seq<Line>, found: seq<Found>, o: MatchOptions, k: nat, i: nat)
    requires i < k < |lines| && !Shown(lines, found, o, k, i) && Selected(lines, found, o, k)
    ensures !Selected(lines, found, o, i) && !Hit(lines[i], found)
  {
    assert Selected(lines, found, o, i) ==> InWindow(o, i, i);
    HitsGrow(lines, found, i, k);
  }

  /** Before the drain, the output already is what is shown among the lines below the ring. */
  lemma BeforeDrain(text: seq<Byte>, lines: seq<Line>, found: seq<Found>, o: MatchOptions,
                    k: nat, out: seq<LineEvent>, emitted: nat, ring: seq<Pending>, after: nat)
    requires LoopInv(text, lines, found, o, k, out, emitted, ring, after) && k < |lines| && Selected(lines, found, o, k)
    ensures var lo := RingStart(emitted, o.before, k); lo <= k && out == Printed(text, lines, found, o, k + 1, lo)
  {
    var lo := RingStart(emitted, o.before, k);
    hide Selected, Event;
    var n := k + 1;
    forall i: nat | i < lo ensures Shown(lines, found, o, n, i) <==> Shown(lines, found, o, k, i) {
      ShownNext(lines, found, o, k, i);
    }
    hide Shown;
    PrintedSame(text, lines, found, o, k, n, emitted);
    PrintedQuiet(text, lines, found, o, n, emitted, lo);
  }

  /** An unselected line inside a window is printed. */
  lemma AfterStep(text: seq<Byte>, lines: seq<Line>, found: seq<Found>, o: MatchOptions,
                  k: nat, out: seq<LineEvent>, emitted: nat, ring: seq<Pending>, after: nat)
    requires LoopInv(text, lines, found, o, k, out, emitted, ring, after) && k < |lines| && !Selected(lines, found, o, k) && after > 0
    ensures ring == []
    ensures LoopInv(text, lines, found, o, k + 1, out + [Event(text, lines, found, o, k)], k + 1, [], after - 1)
  {
    hide Selected, Event;
    var n := k + 1;
    forall i: nat ensures Shown(lines, found, o, n, i) <==> Shown(lines, found, o, k, i) {
      ShownNext(lines, found, o, k, i);
    }
    hide Shown;
    PrintedSame(text, lines, found, o, k, k + 1, k);
    assert Shown(lines, found, o, k, k);
    assert RingOf(lines, RingStart(k + 1, o.before, k + 1), k + 1) == [];
  }

  /** Any other line is remembered, the oldest being forgotten when the ring is full. */
  lemma QuietStep(text: seq<Byte>, lines: seq<Line>, found: seq<Found>, o: MatchOptions,
                  k: nat, out: seq<LineEvent>, emitted: nat, ring: seq<Pending>, next: seq<Pending>)
    requires LoopInv(text, lines, found, o, k, out, emitted, ring, 0) && k < |lines| && !Selected(lines, found, o, k)
    requires next == if o.before == 0 then ring
                     else (if |ring| == o.before then ring[1..] else ring) + [Pending(k + 1, lines[k].start, lines[k].spanEnd)]
    ensures LoopInv(text, lines, found, o, k + 1, out, emitted, next, 0)
  {
    hide Selected, Event;
    var n := k + 1;
    forall i: nat ensures Shown(lines, found, o, n, i) <==> Shown(lines, found, o, k, i) {
      ShownNext(lines, found, o, k, i);
    }
    hide Shown;
    PrintedSame(text, lines, found, o, k, k + 1, emitted);
    assert next == RingOf(lines, RingStart(emitted, o.before, k + 1), k + 1);
  }

  // ---------------------------------------------------------------------------------------------
  // Matches line by line

  /** The first `f` matches start before `pos`, the others at or after it. */
  ghost predicate SplitAt(found: seq<Found>, f: nat, pos: nat) {
    && f <= |found|
    && (forall i :: 0 <= i < f ==> found[i].start < pos)
    && (forall i :: f <= i < |found| ==> found[i].start >= pos)
  }

  lemma {:induction false} NoneOnLine(line: Line, found: seq<Found>, a: nat, b: nat)
    requires a <= b <= |found| && forall i :: a <= i < b ==> !OnLine(line, found[i])
    ensures SubMatches(line, found, b) == SubMatches(line, found, a)
    decreases b
  {
    if a < b {
      NoneOnLine(line, found, a, b - 1);
    }
  }

  /** Take the matches that start on the line. */
  method TakeMatches(line: Line, found: seq<Found>, f: nat, ghost len: nat) returns (next: nat, subs: seq<SubMatch>)
    requires Ordered(found, len) && SplitAt(found, f, line.start) && line.start <= line.contentEnd
    ensures subs == SubMatches(line, found, |found|)
    ensures SplitAt(found, next, line.contentEnd + 1)
  {
    next, subs := f, [];
    NoneOnLine(line, found, 0, f);
    NothingTaken(line, found);
    hide SubMatches;
    while next < |found| && found[next].start <= line.contentEnd
      invariant f <= next <= |found| && subs == SubMatches(line, found, next)
      invariant forall i :: 0 <= i < next ==> found[i].start <= line.contentEnd
    {
      TakeOne(line, found, next);
      subs := subs + [Clamp(line, found[next])];
      next := next + 1;
    }
    LaterStartBeyond(line, found, next, len);
    NoneOnLine(line, found, next, |found|);
  }

  lemma NothingTaken(line: Line, found: seq<Found>)
    ensures SubMatches(line, found, 0) == []
  {
  }

  lemma TakeOne(line: Line, found: seq<Found>, n: nat)
    requires n < |found| && OnLine(line, found[n])
    ensures SubMatches(line, found, n + 1) == SubMatches(line, found, n) + [Clamp(line, found[n])]
  {
  }

  lemma LaterStartBeyond(line: Line, found: seq<Found>, n: nat, len: nat)
    requires Ordered(found, len) && n <= |found| && (n < |found| ==> found[n].start > line.contentEnd)
    ensures forall i :: n <= i < |found| ==> found[i].start > line.contentEnd
  {
    forall i | n <= i < |found| ensures found[i].start > line.contentEnd {
      if n < i {
        assert found[n].end <= found[i].start;
      }
    }
  }

  /** Print what the ring remembers. */
  method Drain(text: seq<Byte>, ghost lines: seq<Line>, ghost found: seq<Found>, ghost o: MatchOptions,
               ghost k: nat, out: seq<LineEvent>, ghost emitted: nat, ring: seq<Pending>, ghost after: nat)
    returns (drained: seq<LineEvent>)
    requires LoopInv(text, lines, found, o, k, out, emitted, ring, after) && k < |lines| && Selected(lines, found, o, k)
    ensures drained == Printed(text, lines, found, o, k + 1, k)
  {
    hide *;
    ghost var lo := RingStart(emitted, o.before, k);
    BeforeDrain(text, lines, found, o, k, out, emitted, ring, after);
    drained := out;
    RingIs(text, lines, found, o, k, out, emitted, ring, after);
    for i := 0 to |ring|
      invariant drained == Printed(text, lines, found, o, k + 1, lo + i)
    {
      DrainNext(text, lines, found, o, k, out, emitted, ring, after, i);
      drained := drained + [LineEvent(ring[i].line, Context, ring[i].start, text[ring[i].start..ring[i].spanEnd], [])];
    }
  }

  lemma RingIs(text: seq<Byte>, lines: seq<Line>, found: seq<Found>, o: MatchOptions,
               k: nat, out: seq<LineEvent>, emitted: nat, ring: seq<Pending>, after: nat)
    requires LoopInv(text, lines, found, o, k, out, emitted, ring, after) && k < |lines|
    ensures LinesOk(text, lines) && RingStart(emitted, o.before, k) + |ring| == k
  {
  }

  lemma PendingIs(text: seq<Byte>, lines: seq<Line>, found: seq<Found>, o: MatchOptions,
                  k: nat, out: seq<LineEvent>, emitted: nat, ring: seq<Pending>, after: nat, i: nat)
    requires LoopInv(text, lines, found, o, k, out, emitted, ring, after) && k < |lines| && i < |ring|
    ensures var at := RingStart(emitted, o.before, k) + i;
      at < k && ring[i] == Pending(at + 1, lines[at].start, lines[at].spanEnd) && lines[at].start <= lines[at].spanEnd <= |text|
  {
    hide Shown, Printed;
  }

  lemma PrintedNext(text: seq<Byte>, lines: seq<Line>, found: seq<Found>, o: MatchOptions, n: nat, at: nat)
    requires LinesOk(text, lines) && at < |lines| && Shown(lines, found, o, n, at)
    ensures lines[at].start <= lines[at].spanEnd <= |text|
    ensures Printed(text, lines, found, o, n, at + 1) == Printed(text, lines, found, o, n, at) + [Event(text, lines, found, o, at)]
  {
    hide Event, Shown;
  }

  lemma DrainNext(text: seq<Byte>, lines: seq<Line>, found: seq<Found>, o: MatchOptions,
                  k: nat, out: seq<LineEvent>, emitted: nat, ring: seq<Pending>, after: nat, i: nat)
    requires LoopInv(text, lines, found, o, k, out, emitted, ring, after) && k < |lines| && Selected(lines, found, o, k) && i < |ring|
    ensures var at := RingStart(emitted, o.before, k) + i;
      && at < k && ring[i].start <= ring[i].spanEnd <= |text| && LinesOk(text, lines)
      && Printed(text, lines, found, o, k + 1, at + 1) == Printed(text, lines, found, o, k + 1, at) +
           [LineEvent(ring[i].line, Context, ring[i].start, text[ring[i].start..ring[i].spanEnd], [])]
  {
    hide *;
    var at := RingStart(emitted, o.before, k) + i;
    RingIs(text, lines, found, o, k, out, emitted, ring, after);
    PendingIs(text, lines, found, o, k, out, emitted, ring, after, i);
    DrainOne(text, lines, found, o, k, out, emitted, ring, after, at);
    PrintedNext(text, lines, found, o, k + 1, at);
  }

  /** Nothing can be selected from line `k` on. */
  ghost predicate Finished(lines: seq<Line>, found: seq<Found>, o: MatchOptions, k: nat) {
    forall j: nat :: k <= j ==> !Selected(lines, found, o, j)
  }

  lemma CapReached(lines: seq<Line>, found: seq<Found>, o: MatchOptions, k: nat)
    requires k <= |lines| && o.maxCount.Some? && Hits(lines, found, k) >= o.maxCount.value
    ensures Finished(lines, found, o, k)
  {
    forall j: nat | k <= j < |lines| ensures Hits(lines, found, j) >= Hits(lines, found, k) {
      HitsGrow(lines, found, k, j);
    }
  }

  lemma MatchesUsedUp(text: seq<Byte>, lines: seq<Line>, found: seq<Found>, o: MatchOptions, k: nat)
    requires lines == LinesFrom(text, 0) && k < |lines| && SplitAt(found, |found|, lines[k].contentEnd + 1)
    ensures Finished(lines, found, o, k + 1)
  {
    forall j: nat | k + 1 <= j < |lines| ensures !Hit(lines[j], found) {
      LinesApart(text, k, j);
    }
  }

  /** When nothing more can be selected and no window is open, the output is complete. */
  lemma Complete(text: seq<Byte>, lines: seq<Line>, found: seq<Found>, o: MatchOptions,
                 k: nat, out: seq<LineEvent>, emitted: nat, ring: seq<Pending>, after: nat)
    requires LoopInv(text, lines, found, o, k, out, emitted, ring, after)
    requires k == |lines| || (after == 0 && Finished(lines, found, o, k))
    ensures out == Printed(text, lines, found, o, |lines|, |lines|)
  {
    hide Selected, Event;
    forall i: nat ensures Shown(lines, found, o, |lines|, i) <==> Shown(lines, found, o, k, i) {
    }
    hide Shown;
    PrintedSame(text, lines, found, o, k, |lines|, emitted);
    PrintedQuiet(text, lines, found, o, |lines|, emitted, |lines|);
  }

  lemma Opening(text: seq<Byte>, lines: seq<Line>, found: seq<Found>, o: MatchOptions)
    requires LinesOk(text, lines)
    ensures LoopInv(text, lines, found, o, 0, [], 0, [], 0)
  {
    forall i: nat ensures !Shown(lines, found, o, 0, i) {
    }
  }

  /** One line of the loop. */
  method PrintLine(text: seq<Byte>, ghost lines: seq<Line>, ghost found: seq<Found>, o: MatchOptions, k: nat, line: Line, subs: seq<SubMatch>,
                   select: bool, out: seq<LineEvent>, ghost emitted: nat, ring: seq<Pending>, after: nat)
    returns (out': seq<LineEvent>, ghost emitted': nat, ring': seq<Pending>, after': nat)
    requires LoopInv(text, lines, found, o, k, out, emitted, ring, after) && k < |lines| && line == lines[k]
    requires subs == SubMatches(line, found, |found|) && (select <==> Selected(lines, found, o, k))
    ensures LoopInv(text, lines, found, o, k + 1, out', emitted', ring', after')
  {
    out', emitted', ring', after' := out, emitted, ring, after;
    assert line.start <= line.spanEnd <= |text|;
    var kind := if select then Match else Context;
    var event := LineEvent(k + 1, kind, line.start, text[line.start..line.spanEnd], subs);
    assert event == Event(text, lines, found, o, k);
    hide LoopInv, Selected, Event;
    if select {
      var drained := Drain(text, lines, found, o, k, out, emitted, ring, after);
      SelectedStep(text, lines, found, o, k, out, emitted, ring, after, drained);
      out', emitted', ring', after' := drained + [event], k + 1, [], o.after;
    } else if after > 0 {
      AfterStep(text, lines, found, o, k, out, emitted, ring, after);
      out', emitted', ring', after' := out + [event], k + 1, [], after - 1;
    } else {
      if o.before > 0 {
        if |ring| == o.before {
          ring' := ring[1..];
        }
        ring' := ring' + [Pending(k + 1, line.start, line.spanEnd)];
      }
      QuietStep(text, lines, found, o, k, out, emitted, ring, ring');
    }
  }

  /** `grep_matches`: the output is exactly the lines in the windows of the selected lines. */
  method GrepMatches(text: seq<Byte>, found: seq<Found>, o: MatchOptions) returns (out: seq<LineEvent>)
    requires Ordered(found, |text|)
    ensures out == Output(text, found, o)
  {
    hide *;
    ghost var lines := LinesFrom(text, 0);
    AllLinesOk(text);
    out := [];
    if o.maxCount == Some(0) {
      Opening(text, lines, found, o);
      NoHitsYet(lines, found);
      CapReached(lines, found, o, 0);
      Complete(text, lines, found, o, 0, [], 0, [], 0);
      OutputIs(text, found, o);
      return;
    }
    var f, lineNo, pos, after, matchedLines, done := 0, 0, 0, 0, 0, false;
    var ring: seq<Pending> := [];
    ghost var emitted := 0;
    Opening(text, lines, found, o);
    LoopStarts(text, lines, found, o);
    while pos < |text|
      invariant AtLine(text, lines, pos, lineNo)
      invariant pos < |text| ==> SplitAt(found, f, pos)
      invariant LoopInv(text, lines, found, o, lineNo, out, emitted, ring, after)
      invariant CapState(lines, found, o, lineNo, matchedLines, done)
      decreases |text| - pos
    {
      LineStarts(text, lines, pos, lineNo);
      var line := LineFrom(text, pos);
      var subs;
      f, subs := TakeMatches(line, found, f, |text|);
      SelectIff(lines, found, o, lineNo, matchedLines, done, subs);
      var select := subs != [] && !done;
      out, emitted, ring, after := PrintLine(text, lines, found, o, lineNo, line, subs, select, out, emitted, ring, after);
      if select {
        matchedLines := matchedLines + 1;
        if o.maxCount == Some(matchedLines) {
          done := true;
        }
      }
      lineNo := lineNo + 1;
      if (done || f == |found|) && after == 0 {
        if done {
          CapIs(lines, found, o, lineNo, matchedLines, done);
        } else {
          MatchesUsedUp(text, lines, found, o, lineNo - 1);
        }
        Complete(text, lines, found, o, lineNo, out, emitted, ring, after);
        OutputIs(text, found, o);
        return;
      }
      pos := line.spanEnd;
    }
    EndOfText(text, lines, pos, lineNo);
    Complete(text, lines, found, o, lineNo, out, emitted, ring, after);
    OutputIs(text, found, o);
  }

  lemma NoHitsYet(lines: seq<Line>, found: seq<Found>)
    ensures Hits(lines, found, 0) == 0
  {
  }

  lemma OutputIs(text: seq<Byte>, found: seq<Found>, o: MatchOptions)
    ensures var lines := LinesFrom(text, 0);
      LinesOk(text, lines) && Output(text, found, o) == Printed(text, lines, found, o, |lines|, |lines|)
  {
    AllLinesOk(text);
  }

  lemma EndOfText(text: seq<Byte>, lines: seq<Line>, pos: nat, k: nat)
    requires AtLine(text, lines, pos, k) && pos >= |text|
    ensures k == |lines|
  {
  }

  lemma LoopStarts(text: seq<Byte>, lines: seq<Line>, found: seq<Found>, o: MatchOptions)
    requires lines == LinesFrom(text, 0) && o.maxCount != Some(0)
    ensures CapState(lines, found, o, 0, 0, false) && SplitAt(found, 0, 0) && AtLine(text, lines, 0, 0)
  {
  }

  /** `matched_lines` counts the lines with a match until the cap, and `done` says it was reached. */
  ghost predicate CapState(lines: seq<Line>, found: seq<Found>, o: MatchOptions, k: nat, matched: nat, done: bool) {
    && k <= |lines|
    && (!done ==> matched == Hits(lines, found, k) && (o.maxCount.Some? ==> matched < o.maxCount.value))
    && (done ==> o.maxCount.Some? && Hits(lines, found, k) >= o.maxCount.value)
  }

  lemma CapIs(lines: seq<Line>, found: seq<Found>, o: MatchOptions, k: nat, matched: nat, done: bool)
    requires CapState(lines, found, o, k, matched, done) && done
    ensures Finished(lines, found, o, k)
  {
    CapReached(lines, found, o, k);
  }

  lemma SelectIff(lines: seq<Line>, found: seq<Found>, o: MatchOptions, k: nat, matched: nat, done: bool, subs: seq<SubMatch>)
    requires CapState(lines, found, o, k, matched, done) && k < |lines| && subs == SubMatches(lines[k], found, |found|)
    ensures subs != [] && !done <==> Selected(lines, found, o, k)
    ensures var m := if subs != [] && !done then matched + 1 else matched;
      CapState(lines, found, o, k + 1, m, done || (subs != [] && !done && o.maxCount == Some(m)))
  {
    SubMatchesNonempty(lines[k], found, |found|);
  }

  /** Line `k` starts at `pos`. */
  ghost predicate AtLine(text: seq<Byte>, lines: seq<Line>, pos: nat, k: nat) {
    pos <= |text| && k <= |lines| && LinesFrom(text, pos) == lines[k..]
  }

  lemma LineStarts(text: seq<Byte>, lines: seq<Line>, pos: nat, k: nat)
    requires AtLine(text, lines, pos, k) && pos < |text|
    ensures k < |lines| && lines[k] == LineFrom(text, pos)
    ensures var line := LineFrom(text, pos);
      pos == line.start <= line.contentEnd && pos < line.spanEnd <= |text| && (line.spanEnd < |text| ==> line.spanEnd == line.contentEnd + 1)
    ensures AtLine(text, lines, LineFrom(text, pos).spanEnd, k + 1)
  {
    assert lines[k..][0] == lines[k];
    assert lines[k..][1..] == lines[k + 1..];
  }

  // ---------------------------------------------------------------------------------------------
  // When anything is printed

  lemma {:induction false} LineHolding(text: seq<Byte>, pos: nat, p: nat) returns (k: nat)
    requires pos <= p < |text|
    ensures k < |LinesFrom(text, pos)| && LinesFrom(text, pos)[k].start <= p < LinesFrom(text, pos)[k].spanEnd
    ensures LinesFrom(text, pos)[k].contentEnd + 1 >= LinesFrom(text, pos)[k].spanEnd
    decreases |text| - pos
  {
    var line := LineFrom(text, pos);
    if p < line.spanEnd {
      k := 0;
    } else {
      var j := LineHolding(text, line.spanEnd, p);
      k := j + 1;
    }
  }

  /** A match starts on some line exactly when it starts inside the text or the text does not end in a newline. */
  lemma MatchHasLine(text: seq<Byte>, m: Found)
    requires m.start <= |text|
    ensures (exists k :: 0 <= k < |LinesFrom(text, 0)| && OnLine(LinesFrom(text, 0)[k], m)) <==>
            text != [] && (m.start < |text| || text[|text| - 1] != NEWLINE)
  {
    var lines := LinesFrom(text, 0);
    if text != [] && (m.start < |text| || text[|text| - 1] != NEWLINE) {
      var p := if m.start < |text| then m.start else m.start - 1;
      var k := LineHolding(text, 0, p);
      LinesAt(text, 0, k);
      assert OnLine(lines[k], m);
    }
    if k: nat :| k < |lines| && OnLine(lines[k], m) {
      LinesAt(text, 0, k);
    }
  }

  lemma {:induction false} FirstHit(lines: seq<Line>, found: seq<Found>, k: nat) returns (j: nat)
    requires k < |lines| && Hit(lines[k], found)
    ensures j <= k && Hit(lines[j], found) && Hits(lines, found, j) == 0
  {
    if Hits(lines, found, k) == 0 {
      j := k;
    } else {
      var i := HitBefore(lines, found, k);
      j := FirstHit(lines, found, i);
    }
  }

  lemma {:induction false} HitBefore(lines: seq<Line>, found: seq<Found>, n: nat) returns (i: nat)
    requires n <= |lines| && Hits(lines, found, n) > 0
    ensures i < n && Hit(lines[i], found)
  {
    if Hit(lines[n - 1], found) {
      i := n - 1;
    } else {
      i := HitBefore(lines, found, n - 1);
    }
  }

  lemma {:induction false} PrintedNonempty(text: seq<Byte>, lines: seq<Line>, found: seq<Found>, o: MatchOptions, n: nat, m: nat)
    requires LinesOk(text, lines) && m <= |lines|
    ensures Printed(text, lines, found, o, n, m) != [] <==> exists k: nat :: k < m && Shown(lines, found, o, n, k)
  {
    hide Shown, Event;
    if m > 0 {
      PrintedNonempty(text, lines, found, o, n, m - 1);
    }
  }

  /** The match starts inside a line of the text. */
  predicate StartsOnLine(text: seq<Byte>, m: Found) {
    text != [] && (m.start < |text| || text[|text| - 1] != NEWLINE)
  }

  lemma LineHit(text: seq<Byte>, found: seq<Found>, i: nat) returns (k: nat)
    requires i < |found| && found[i].start <= |text| && StartsOnLine(text, found[i])
    ensures k < |LinesFrom(text, 0)| && Hit(LinesFrom(text, 0)[k], found)
  {
    MatchHasLine(text, found[i]);
    k :| 0 <= k < |LinesFrom(text, 0)| && OnLine(LinesFrom(text, 0)[k], found[i]);
  }

  lemma HitStarts(text: seq<Byte>, found: seq<Found>, k: nat)
    requires Ordered(found, |text|) && k < |LinesFrom(text, 0)| && Hit(LinesFrom(text, 0)[k], found)
    ensures exists i :: 0 <= i < |found| && StartsOnLine(text, found[i])
  {
    var i :| 0 <= i < |found| && OnLine(LinesFrom(text, 0)[k], found[i]);
    MatchHasLine(text, found[i]);
  }

  lemma SelectedShown(lines: seq<Line>, found: seq<Found>, o: MatchOptions, j: nat)
    requires o.maxCount != Some(0) && j < |lines| && Hit(lines[j], found) && Hits(lines, found, j) == 0
    ensures Shown(lines, found, o, |lines|, j)
  {
    assert Selected(lines, found, o, j) && InWindow(o, j, j);
  }

  lemma ShownHit(lines: seq<Line>, found: seq<Found>, o: MatchOptions, k: nat) returns (j: nat)
    requires Shown(lines, found, o, |lines|, k)
    ensures j < |lines| && Hit(lines[j], found)
  {
    j :| j < |lines| && Selected(lines, found, o, j) && InWindow(o, k, j);
  }

  /** Something is printed exactly when `has_line_match` says so. */
  lemma OutputNonempty(text: seq<Byte>, found: seq<Found>, o: MatchOptions)
    requires Ordered(found, |text|) && o.maxCount != Some(0)
    ensures Output(text, found, o) != [] <==> exists i :: 0 <= i < |found| && StartsOnLine(text, found[i])
  {
    var lines := LinesFrom(text, 0);
    OutputIs(text, found, o);
    PrintedNonempty(text, lines, found, o, |lines|, |lines|);
    hide Printed, Output, LinesFrom, Hits, Hit, Shown, StartsOnLine;
    if i: nat :| i < |found| && StartsOnLine(text, found[i]) {
      var k := LineHit(text, found, i);
      var j := FirstHit(lines, found, k);
      SelectedShown(lines, found, o, j);
    }
    if k: nat :| k < |lines| && Shown(lines, found, o, |lines|, k) {
      var j := ShownHit(lines, found, o, k);
      HitStarts(text, found, j);
    }
  }

  /** No match is reported on two lines. */
  lemma OneLineEach(text: seq<Byte>, m: Found, j: nat, k: nat)
    requires j < |LinesFrom(text, 0)| && k < |LinesFrom(text, 0)|
    requires OnLine(LinesFrom(text, 0)[j], m) && OnLine(LinesFrom(text, 0)[k], m)
    ensures j == k
  {
    if j < k {
      LinesApart(text, j, k);
    } else if k < j {
      LinesApart(text, k, j);
    }
  }

  // ---------------------------------------------------------------------------------------------
  // The cheap existence test

  /** `has_line_match` decides, without building any line, whether `grep_matches` prints something. */
  method HasLineMatch(text: seq<Byte>, found: seq<Found>) returns (r: bool)
    requires Ordered(found, |text|)
    ensures forall o: MatchOptions :: o.maxCount != Some(0) ==> (r <==> Output(text, found, o) != [])
  {
    hide Output;
    forall o: MatchOptions | o.maxCount != Some(0)
      ensures Output(text, found, o) != [] <==> exists i :: 0 <= i < |found| && StartsOnLine(text, found[i])
    {
      OutputNonempty(text, found, o);
    }
    if text == [] {
      return false;
    }
    for i := 0 to |found|
      invariant forall j :: 0 <= j < i ==> !StartsOnLine(text, found[j])
    {
      if found[i].start < |text| || text[|text| - 1] != NEWLINE {
        assert StartsOnLine(text, found[i]);
        return true;
      }
    }
    return false;
  }
}
