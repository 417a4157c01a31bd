/**
 Selected blocks become per-document ranges, and the ranges of several patterns merge
 (crates/index/src/candidate.rs).
 */
module CandidateRanges {
  import opened Wrappers
  import opened Sorting
  import opened Grams
  import opened Eval
  import opened Candidate

  // ---------------------------------------------------------------------------------------------
  // Extents

  /** `a` reads at least as much around a match as `b`. */
  predicate AtLeast(a: Extent, b: Extent) {
    a.Document? || (a.Lines? && !b.Document?) || (a.Bytes? && b.Bytes? && a.span >= b.span)
  }

  function PickBroader(left: Extent, right: Extent): (r: Extent)
    ensures AtLeast(r, left) && AtLeast(r, right) && (r == left || r == right)
  {
    if left.Document? || right.Document? then Document
    else if left.Lines? || right.Lines? then Lines
    else Bytes(if left.span > right.span then left.span else right.span)
  }

  predicate Contains(r: CandidateRange, block: nat) { r.start <= block < r.end }

  ghost predicate AnyContains(ranges: seq<CandidateRange>, block: nat) {
    exists k :: 0 <= k < |ranges| && Contains(ranges[k], block)
  }

  /** One range contains all of `[lo, hi)` under an extent at least as broad. */
  ghost predicate RangesCover(ranges: seq<CandidateRange>, lo: nat, hi: nat, extent: Extent) {
    exists k :: 0 <= k < |ranges| && ranges[k].start <= lo && hi <= ranges[k].end && AtLeast(ranges[k].extent, extent)
  }

  // ---------------------------------------------------------------------------------------------
  // Grouping

  type Groups = seq<(nat, seq<CandidateRange>)>

  /** Non-empty ranges of one extent, in order, with a gap between neighbours. */
  ghost predicate Maximal(ranges: seq<CandidateRange>, extent: Extent) {
    && ranges != []
    && (forall k :: 0 <= k < |ranges| ==> ranges[k].start < ranges[k].end && ranges[k].extent == extent)
    && (forall k :: 0 < k < |ranges| ==> ranges[k - 1].end < ranges[k].start)
  }

  ghost predicate GroupsOk(groups: Groups, bases: seq<nat>, extent: Extent) {
    && (forall g :: 0 <= g < |groups| ==> groups[g].0 + 1 < |bases| && Maximal(groups[g].1, extent))
    && (forall g, h :: 0 <= g < h < |groups| ==> groups[g].0 < groups[h].0)
  }

  ghost predicate InGroups(groups: Groups, d: nat, block: nat) {
    exists g :: 0 <= g < |groups| && groups[g].0 == d && AnyContains(groups[g].1, block)
  }

  /** Extend the last range by one block, or start another after a gap. */
  function NextRanges(ranges: seq<CandidateRange>, local: nat, extent: Extent): seq<CandidateRange>
    requires ranges != []
  {
    var last := ranges[|ranges| - 1];
    if last.end == local then ranges[|ranges| - 1 := last.(end := last.end + 1)]
    else ranges + [CandidateRange(local, local + 1, extent)]
  }

  /** One turn of the grouping loop: add to the open document, or open another. */
  function AddBlock(groups: Groups, d: nat, local: nat, extent: Extent): Groups
    requires forall g :: 0 <= g < |groups| ==> groups[g].1 != []
  {
    if groups == [] || groups[|groups| - 1].0 != d then groups + [(d, [CandidateRange(local, local + 1, extent)])]
    else groups[|groups| - 1 := (d, NextRanges(groups[|groups| - 1].1, local, extent))]
  }

  lemma LastRangeGrows(ranges: seq<CandidateRange>, local: nat, extent: Extent)
    requires Maximal(ranges, extent) && ranges[|ranges| - 1].end <= local
    ensures var next := NextRanges(ranges, local, extent);
            && Maximal(next, extent) && next[|next| - 1].end == local + 1
            && forall b: nat :: AnyContains(next, b) <==> AnyContains(ranges, b) || b == local
  {
    var next := NextRanges(ranges, local, extent);
    assert Contains(next[|next| - 1], local);
    hide Maximal;
    forall b: nat ensures AnyContains(next, b) <==> AnyContains(ranges, b) || b == local {
      if k :| 0 <= k < |ranges| && Contains(ranges[k], b) {
        assert Contains(next[k], b);
      }
      if k :| 0 <= k < |next| && Contains(next[k], b) && b != local {
        assert k < |ranges| && Contains(ranges[k], b);
      }
    }
  }

  lemma AppendGroup(groups: Groups, bases: seq<nat>, extent: Extent, d: nat, ranges: seq<CandidateRange>)
    requires GroupsOk(groups, bases, extent) && d + 1 < |bases| && Maximal(ranges, extent)
    requires groups != [] ==> groups[|groups| - 1].0 < d
    ensures GroupsOk(groups + [(d, ranges)], bases, extent)
    ensures forall e: nat, b: nat ::
              InGroups(groups + [(d, ranges)], e, b) <==> InGroups(groups, e, b) || (e == d && AnyContains(ranges, b))
  {
    hide AnyContains, Maximal;
    var next := groups + [(d, ranges)];
    forall e: nat, b: nat ensures InGroups(next, e, b) <==> InGroups(groups, e, b) || (e == d && AnyContains(ranges, b)) {
      if g :| 0 <= g < |groups| && groups[g].0 == e && AnyContains(groups[g].1, b) {
        assert next[g].0 == e && AnyContains(next[g].1, b);
      }
      if e == d && AnyContains(ranges, b) {
        assert next[|groups|].0 == e && AnyContains(next[|groups|].1, b);
      }
    }
  }

  lemma ReplaceLastGroup(groups: Groups, bases: seq<nat>, extent: Extent, ranges: seq<CandidateRange>)
    requires GroupsOk(groups, bases, extent) && groups != [] && Maximal(ranges, extent)
    requires forall b: nat :: AnyContains(groups[|groups| - 1].1, b) ==> AnyContains(ranges, b)
    ensures var d := groups[|groups| - 1].0;
            var next := groups[|groups| - 1 := (d, ranges)];
            && GroupsOk(next, bases, extent)
            && forall e: nat, b: nat ::
                 InGroups(next, e, b) <==> InGroups(groups, e, b) || (e == d && AnyContains(ranges, b))
  {
    hide AnyContains, Maximal;
    var last := |groups| - 1;
    var d := groups[last].0;
    var next := groups[last := (d, ranges)];
    forall e: nat, b: nat ensures InGroups(next, e, b) <==> InGroups(groups, e, b) || (e == d && AnyContains(ranges, b)) {
      if g :| 0 <= g < |groups| && groups[g].0 == e && AnyContains(groups[g].1, b) {
        assert next[g].0 == e && AnyContains(next[g].1, b);
      }
      if e == d && AnyContains(ranges, b) {
        assert next[last].0 == e && AnyContains(next[last].1, b);
      }
      if g :| 0 <= g < |next| && next[g].0 == e && AnyContains(next[g].1, b) && g != last {
        assert groups[g].0 == e && AnyContains(groups[g].1, b);
      }
    }
  }

  lemma AddBlockGroups(groups: Groups, bases: seq<nat>, extent: Extent, d: nat, local: nat)
    requires GroupsOk(groups, bases, extent) && d + 1 < |bases|
    requires groups != [] ==> groups[|groups| - 1].0 <= d
    requires groups != [] && groups[|groups| - 1].0 == d ==>
               var ranges := groups[|groups| - 1].1; ranges[|ranges| - 1].end <= local
    ensures var next := AddBlock(groups, d, local, extent);
            && GroupsOk(next, bases, extent)
            && next != [] && next[|next| - 1].0 == d
            && (var ranges := next[|next| - 1].1; ranges != [] && ranges[|ranges| - 1].end == local + 1)
            && forall e: nat, b: nat :: InGroups(next, e, b) <==> InGroups(groups, e, b) || (e == d && b == local)
  {
    if groups == [] || groups[|groups| - 1].0 != d {
      var single := CandidateRange(local, local + 1, extent);
      SingleRange(single);
      hide AnyContains, Maximal, InGroups;
      AppendGroup(groups, bases, extent, d, [single]);
    } else {
      var ranges := groups[|groups| - 1].1;
      LastRangeGrows(ranges, local, extent);
      hide AnyContains, Maximal, InGroups, NextRanges;
      ReplaceLastGroup(groups, bases, extent, NextRanges(ranges, local, extent));
      LastGroupRanges(groups, ranges, d);
    }
  }

  lemma SingleRange(r: CandidateRange)
    requires r.end == r.start + 1
    ensures Maximal([r], r.extent) && forall b: nat :: AnyContains([r], b) <==> b == r.start
  {
    assert Contains([r][0], r.start);
  }

  lemma LastGroupRanges(groups: Groups, ranges: seq<CandidateRange>, d: nat)
    requires groups != [] && groups[|groups| - 1] == (d, ranges)
    ensures forall b: nat :: AnyContains(ranges, b) ==> InGroups(groups, d, b)
  {
  }

  /** The open range ends just past the last id grouped. */
  ghost predicate EndsAt(groups: Groups, bases: seq<nat>, next: nat) {
    groups != [] ==>
      var (d, ranges) := groups[|groups| - 1];
      d + 1 < |bases| && ranges != [] && bases[d] + ranges[|ranges| - 1].end <= next <= bases[d + 1]
  }

  /** The groups hold exactly the selected blocks, each under its document. */
  ghost predicate GroupsMatch(groups: Groups, ids: seq<nat>, bases: seq<nat>) {
    forall d: nat, b: nat ::
      InGroups(groups, d, b) <==> d + 1 < |bases| && bases[d] + b < bases[d + 1] && bases[d] + b in ids
  }

  /**
   `group_candidate_blocks` on ascending ids: fails exactly on a document-wide extent or an id
   outside the id space, and otherwise partitions the ids into maximal ranges.
   */
  method GroupCandidateBlocks(ids: seq<nat>, bases: seq<nat>, ghost docs: seq<DocMeta>, ghost B: nat, extent: Extent)
    returns (r: Result<Groups>)
    requires B >= 1 && BasesOf(bases, docs, B) && StrictlySorted(IdLess, ids)
    ensures r.Ok? <==> !extent.Document? && forall k :: 0 <= k < |ids| ==> ids[k] < bases[|docs|]
    ensures r.Ok? ==> GroupsOk(r.value, bases, extent) && GroupsMatch(r.value, ids, bases)
  {
    if extent.Document? {
      return Err;
    }
    var total := bases[|bases| - 1];
    var groups: Groups := [];
    assert |bases| == |docs| + 1 && bases[0] == 0 && total == BlockBase(docs, B, |docs|);
    hide *;
    NoGroups(bases, extent);
    for k := 0 to |ids|
      invariant forall m :: 0 <= m < k ==> ids[m] < total
      invariant GroupsOk(groups, bases, extent) && GroupsMatch(groups, ids[..k], bases)
      invariant EndsAt(groups, bases, if k == 0 then 0 else ids[k - 1] + 1)
    {
      var id := ids[k];
      if id >= total {
        return Err;
      }
      BlockDocumentOwns(id, bases, docs, B);
      var d := GetBlockDocument(id, bases);
      var local := id - bases[d];
      GroupStep(groups, ids, k, bases, docs, B, extent, d, local);
      GroupsNotEmpty(groups, bases, extent);
      groups := AddBlock(groups, d, local, extent);
    }
    assert ids[..|ids|] == ids;
    return Ok(groups);
  }

  lemma NoGroups(bases: seq<nat>, extent: Extent)
    ensures GroupsMatch([], [], bases) && GroupsOk([], bases, extent) && EndsAt([], bases, 0)
  {
  }

  lemma GroupsNotEmpty(groups: Groups, bases: seq<nat>, extent: Extent)
    requires GroupsOk(groups, bases, extent)
    ensures forall g :: 0 <= g < |groups| ==> groups[g].1 != []
  {
    hide AnyContains;
  }

  lemma GroupStep(groups: Groups, ids: seq<nat>, k: nat, bases: seq<nat>, docs: seq<DocMeta>, B: nat, extent: Extent,
                  d: nat, local: nat)
    requires B >= 1 && BasesOf(bases, docs, B) && StrictlySorted(IdLess, ids) && k < |ids|
    requires GroupsOk(groups, bases, extent) && GroupsMatch(groups, ids[..k], bases)
    requires EndsAt(groups, bases, if k == 0 then 0 else ids[k - 1] + 1)
    requires d < |docs| && ids[k] == bases[d] + local < bases[d + 1]
    ensures var next := AddBlock(groups, d, local, extent);
            && GroupsOk(next, bases, extent) && GroupsMatch(next, ids[..k + 1], bases)
            && EndsAt(next, bases, ids[k] + 1)
  {
    hide GroupsMatch, InGroups, Maximal, AddBlock;
    GroupsNotEmpty(groups, bases, extent);
    assert k > 0 ==> IdLess(ids[k - 1], ids[k]);
    if groups != [] {
      LaterDocument(groups, bases, docs, B, d, ids[k], if k == 0 then 0 else ids[k - 1] + 1);
    }
    hide EndsAt, BasesOf;
    AddBlockGroups(groups, bases, extent, d, local);
    MatchGrows(groups, AddBlock(groups, d, local, extent), ids, k, bases, docs, B, d, local);
    EndsAfter(AddBlock(groups, d, local, extent), bases, d, local);
  }

  lemma EndsAfter(groups: Groups, bases: seq<nat>, d: nat, local: nat)
    requires groups != [] && groups[|groups| - 1].0 == d && d + 1 < |bases| && bases[d] + local < bases[d + 1]
    requires var ranges := groups[|groups| - 1].1; ranges != [] && ranges[|ranges| - 1].end == local + 1
    ensures EndsAt(groups, bases, bases[d] + local + 1)
  {
  }

  lemma LaterDocument(groups: Groups, bases: seq<nat>, docs: seq<DocMeta>, B: nat, d: nat, id: nat, next: nat)
    requires B >= 1 && BasesOf(bases, docs, B) && groups != [] && EndsAt(groups, bases, next)
    requires d < |docs| && bases[d] <= id < bases[d + 1] && next <= id
    ensures groups[|groups| - 1].0 <= d
    ensures groups[|groups| - 1].0 == d ==>
              var ranges := groups[|groups| - 1].1; ranges[|ranges| - 1].end <= id - bases[d]
  {
    var last := groups[|groups| - 1].0;
    if d < last {
      BasesAscend(docs, B, d + 1, last);
    }
  }

  lemma MatchGrows(groups: Groups, next: Groups, ids: seq<nat>, k: nat, bases: seq<nat>, docs: seq<DocMeta>, B: nat,
                   d: nat, local: nat)
    requires B >= 1 && BasesOf(bases, docs, B) && k < |ids|
    requires GroupsMatch(groups, ids[..k], bases)
    requires d < |docs| && ids[k] == bases[d] + local < bases[d + 1]
    requires forall e: nat, b: nat :: InGroups(next, e, b) <==> InGroups(groups, e, b) || (e == d && b == local)
    ensures GroupsMatch(next, ids[..k + 1], bases)
  {
    hide InGroups;
    assert ids[..k + 1] == ids[..k] + [ids[k]];
    forall e: nat, b: nat
      ensures InGroups(next, e, b) <==> e + 1 < |bases| && bases[e] + b < bases[e + 1] && bases[e] + b in ids[..k + 1]
    {
      if e + 1 < |bases| && bases[e] + b < bases[e + 1] && bases[e] + b == ids[k] {
        BasesAscend(docs, B, e + 1, |docs|);
        BlockDocumentUnique(ids[k], bases, docs, B, e);
        BlockDocumentUnique(ids[k], bases, docs, B, d);
      }
    }
  }

  /** A run of selected blocks ends up inside a single range. */
  lemma {:induction false} RunInOneRange(ranges: seq<CandidateRange>, extent: Extent, lo: nat, hi: nat)
    requires Maximal(ranges, extent) && lo < hi
    requires forall b :: lo <= b < hi ==> AnyContains(ranges, b)
    ensures RangesCover(ranges, lo, hi, extent)
    decreases hi
  {
    if lo + 1 == hi {
      assert AnyContains(ranges, lo);
      var k :| 0 <= k < |ranges| && Contains(ranges[k], lo);
      assert ranges[k].start <= lo && hi <= ranges[k].end && AtLeast(ranges[k].extent, extent);
    } else {
      RunInOneRange(ranges, extent, lo, hi - 1);
      var k :| 0 <= k < |ranges| && ranges[k].start <= lo && hi - 1 <= ranges[k].end && AtLeast(ranges[k].extent, extent);
      assert AnyContains(ranges, hi - 1);
      var m :| 0 <= m < |ranges| && Contains(ranges[m], hi - 1);
      if m < k {
        RangesApart(ranges, extent, m, k);
      } else if k < m {
        RangesApart(ranges, extent, k, m);
      }
      assert ranges[k].start <= lo && hi <= ranges[k].end && AtLeast(ranges[k].extent, extent);
    }
  }

  lemma {:induction false} RangesApart(ranges: seq<CandidateRange>, extent: Extent, k: nat, m: nat)
    requires Maximal(ranges, extent) && k < m < |ranges|
    ensures ranges[k].end < ranges[m].start
    decreases m
  {
    if k + 1 < m {
      RangesApart(ranges, extent, k, m - 1);
    }
  }

  // ---------------------------------------------------------------------------------------------
  // Merging the ranges of several patterns

  predicate KeyAtMost(a: CandidateRange, b: CandidateRange) {
    a.start < b.start || (a.start == b.start && a.end <= b.end)
  }

  function InsertByKey(r: CandidateRange, rs: seq<CandidateRange>): seq<CandidateRange> {
    if rs == [] || KeyAtMost(r, rs[0]) then [r] + rs else [rs[0]] + InsertByKey(r, rs[1..])
  }

  function SortByKey(rs: seq<CandidateRange>): seq<CandidateRange> {
    if rs == [] then [] else InsertByKey(rs[0], SortByKey(rs[1..]))
  }

  ghost predicate StartsAscend(rs: seq<CandidateRange>) {
    forall k, m :: 0 <= k < m < |rs| ==> rs[k].start <= rs[m].start
  }

  lemma {:induction false} InsertByKeyAscends(r: CandidateRange, rs: seq<CandidateRange>)
    requires StartsAscend(rs)
    ensures StartsAscend(InsertByKey(r, rs))
    ensures forall x :: x in InsertByKey(r, rs) <==> x == r || x in rs
  {
    if rs != [] {
      assert rs == [rs[0]] + rs[1..];
      if !KeyAtMost(r, rs[0]) {
        InsertByKeyAscends(r, rs[1..]);
        var rest := InsertByKey(r, rs[1..]);
        forall k | 0 <= k < |rest| ensures rs[0].start <= rest[k].start {
          assert rest[k] in rest;
        }
      }
    }
  }

  lemma {:induction false} SortByKeyAscends(rs: seq<CandidateRange>)
    ensures StartsAscend(SortByKey(rs))
    ensures forall x :: x in SortByKey(rs) <==> x in rs
  {
    if rs != [] {
      assert rs == [rs[0]] + rs[1..];
      SortByKeyAscends(rs[1..]);
      InsertByKeyAscends(rs[0], SortByKey(rs[1..]));
    }
  }

  /** One turn of the merging loop. */
  function AddRange(merged: seq<CandidateRange>, r: CandidateRange): seq<CandidateRange> {
    if merged == [] then [r]
    else
      var last := merged[|merged| - 1];
      var overlaps := r.start < last.end;
      var joins := r.start == last.end && r.extent == last.extent;
      if overlaps || joins then
        merged[|merged| - 1 := CandidateRange(last.start, if r.end > last.end then r.end else last.end,
                                              if overlaps then PickBroader(last.extent, r.extent) else last.extent)]
      else merged + [r]
  }

  ghost predicate AllProper(rs: seq<CandidateRange>) {
    forall k :: 0 <= k < |rs| ==> rs[k].start < rs[k].end
  }

  /** In order and pairwise disjoint. */
  ghost predicate Disjoint(rs: seq<CandidateRange>) {
    AllProper(rs) && forall k, m :: 0 <= k < m < |rs| ==> rs[k].end <= rs[m].start
  }

  /** Every input lies whole inside one output that reads at least as much. */
  ghost predicate NoneLost(inputs: seq<CandidateRange>, out: seq<CandidateRange>) {
    forall k :: 0 <= k < |inputs| ==> RangesCover(out, inputs[k].start, inputs[k].end, inputs[k].extent)
  }

  ghost predicate SameBlocks(inputs: seq<CandidateRange>, out: seq<CandidateRange>) {
    forall b: nat :: AnyContains(inputs, b) <==> AnyContains(out, b)
  }

  /** No output reads more than some input inside it asked for. */
  ghost predicate ExtentsAsked(inputs: seq<CandidateRange>, out: seq<CandidateRange>) {
    forall m :: 0 <= m < |out| ==> Asked(inputs, out[m])
  }

  ghost predicate Asked(inputs: seq<CandidateRange>, o: CandidateRange) {
    exists r :: r in inputs && o.start <= r.start && r.end <= o.end && r.extent == o.extent
  }

  ghost predicate Merged(inputs: seq<CandidateRange>, out: seq<CandidateRange>) {
    Disjoint(out) && NoneLost(inputs, out) && SameBlocks(inputs, out) && ExtentsAsked(inputs, out)
  }

  lemma CoverTransfers(a: seq<CandidateRange>, b: seq<CandidateRange>, lo: nat, hi: nat, extent: Extent)
    requires RangesCover(a, lo, hi, extent)
    requires forall k :: 0 <= k < |a| ==> RangesCover(b, a[k].start, a[k].end, a[k].extent)
    ensures RangesCover(b, lo, hi, extent)
  {
    var k :| 0 <= k < |a| && a[k].start <= lo && hi <= a[k].end && AtLeast(a[k].extent, extent);
    var m :| 0 <= m < |b| && b[m].start <= a[k].start && a[k].end <= b[m].end && AtLeast(b[m].extent, a[k].extent);
    assert b[m].start <= lo && hi <= b[m].end && AtLeast(b[m].extent, extent);
  }

  lemma AddRangeDisjoint(merged: seq<CandidateRange>, r: CandidateRange)
    requires Disjoint(merged) && r.start < r.end
    requires merged != [] ==> merged[|merged| - 1].start <= r.start
    ensures Disjoint(AddRange(merged, r))
    ensures var out := AddRange(merged, r); out != [] && out[|out| - 1].start <= r.start
  {
  }

  /** A range covers itself after it is added, and so does everything there before. */
  lemma AddRangeCovers(merged: seq<CandidateRange>, r: CandidateRange)
    requires r.start < r.end
    requires merged != [] ==> merged[|merged| - 1].start <= r.start
    ensures RangesCover(AddRange(merged, r), r.start, r.end, r.extent)
    ensures forall k :: 0 <= k < |merged| ==>
                          RangesCover(AddRange(merged, r), merged[k].start, merged[k].end, merged[k].extent)
  {
    var out := AddRange(merged, r);
    var top := out[|out| - 1];
    assert top.start <= r.start && r.end <= top.end && AtLeast(top.extent, r.extent);
    forall k | 0 <= k < |merged| ensures RangesCover(out, merged[k].start, merged[k].end, merged[k].extent) {
      assert out[k].start <= merged[k].start && merged[k].end <= out[k].end && AtLeast(out[k].extent, merged[k].extent);
    }
  }

  lemma AddRangeBlocks(merged: seq<CandidateRange>, r: CandidateRange, b: nat)
    requires Disjoint(merged) && r.start < r.end
    requires merged != [] ==> merged[|merged| - 1].start <= r.start
    ensures AnyContains(AddRange(merged, r), b) <==> AnyContains(merged, b) || Contains(r, b)
  {
    var out := AddRange(merged, r);
    if k :| 0 <= k < |merged| && Contains(merged[k], b) {
      assert Contains(out[k], b);
    }
    if Contains(r, b) {
      assert Contains(out[|out| - 1], b);
    }
    if k :| 0 <= k < |out| && Contains(out[k], b) && !Contains(r, b) {
      assert k < |merged| && Contains(merged[k], b);
    }
  }

  lemma InRangesAppend(rs: seq<CandidateRange>, more: seq<CandidateRange>, b: nat)
    ensures AnyContains(rs + more, b) <==> AnyContains(rs, b) || AnyContains(more, b)
  {
    var all := rs + more;
    if k :| 0 <= k < |rs| && Contains(rs[k], b) {
      assert Contains(all[k], b);
    }
    if k :| 0 <= k < |more| && Contains(more[k], b) {
      assert Contains(all[|rs| + k], b);
    }
    if k :| 0 <= k < |all| && Contains(all[k], b) {
      assert if k < |rs| then Contains(rs[k], b) else Contains(more[k - |rs|], b);
    }
  }

  lemma AddRangeAsked(inputs: seq<CandidateRange>, merged: seq<CandidateRange>, r: CandidateRange)
    requires ExtentsAsked(inputs, merged) && r.start < r.end
    requires merged != [] ==> merged[|merged| - 1].start <= r.start
    ensures ExtentsAsked(inputs + [r], AddRange(merged, r))
  {
    var all, out := inputs + [r], AddRange(merged, r);
    assert r in all && forall x :: x in inputs ==> x in all;
    forall m | 0 <= m < |out| ensures Asked(all, out[m]) {
      if m < |merged| {
        assert Asked(inputs, merged[m]);
        var x :| x in inputs && merged[m].start <= x.start && x.end <= merged[m].end && x.extent == merged[m].extent;
        assert x in all;
        if out[m].extent != merged[m].extent {
          assert out[m].extent == r.extent;
        }
      }
    }
  }

  lemma MergeStep(inputs: seq<CandidateRange>, merged: seq<CandidateRange>, r: CandidateRange)
    requires Merged(inputs, merged) && r.start < r.end
    requires merged != [] ==> merged[|merged| - 1].start <= r.start
    ensures Merged(inputs + [r], AddRange(merged, r))
    ensures var out := AddRange(merged, r); out != [] && out[|out| - 1].start <= r.start
  {
    hide AddRange, RangesCover, AnyContains, Disjoint, ExtentsAsked;
    var all, out := inputs + [r], AddRange(merged, r);
    AddRangeDisjoint(merged, r);
    AddRangeCovers(merged, r);
    forall k | 0 <= k < |all| ensures RangesCover(out, all[k].start, all[k].end, all[k].extent) {
      if k < |inputs| {
        CoverTransfers(merged, out, all[k].start, all[k].end, all[k].extent);
      }
    }
    forall b: nat ensures AnyContains(all, b) <==> AnyContains(out, b) {
      AddRangeBlocks(merged, r, b);
      InRangesAppend(inputs, [r], b);
      OneRange(r, b);
    }
    AddRangeAsked(inputs, merged, r);
  }

  lemma OneRange(r: CandidateRange, b: nat)
    ensures AnyContains([r], b) <==> Contains(r, b)
  {
    assert [r][0] == r;
  }

  /** The merging loop over ranges sorted by position. */
  method MergeSorted(sorted: seq<CandidateRange>) returns (merged: seq<CandidateRange>)
    requires StartsAscend(sorted) && AllProper(sorted)
    ensures Merged(sorted, merged)
  {
    merged := [];
    NothingMerged();
    hide *;
    for k := 0 to |sorted|
      invariant Merged(sorted[..k], merged)
      invariant k > 0 ==> merged != [] && merged[|merged| - 1].start <= sorted[k - 1].start
      invariant k == 0 ==> merged == []
    {
      assert sorted[..k + 1] == sorted[..k] + [sorted[k]];
      AscendingAt(sorted, k);
      MergeStep(sorted[..k], merged, sorted[k]);
      merged := AddRange(merged, sorted[k]);
    }
    assert sorted[..|sorted|] == sorted;
  }

  /** `merge_candidate_ranges`. */
  method MergeCandidateRanges(current: seq<CandidateRange>, incoming: seq<CandidateRange>)
    returns (merged: seq<CandidateRange>)
    requires AllProper(current) && AllProper(incoming)
    ensures Disjoint(merged)
    ensures NoneLost(current, merged) && NoneLost(incoming, merged)
    ensures forall b: nat :: AnyContains(merged, b) <==> AnyContains(current, b) || AnyContains(incoming, b)
    ensures ExtentsAsked(current + incoming, merged)
  {
    assert AllProper(current + incoming);
    hide *;
    var sorted := SortByKey(current + incoming);
    SortByKeyAscends(current + incoming);
    SortedProper(current + incoming, sorted);
    merged := MergeSorted(sorted);
    MergedSameElements(current, incoming, sorted, merged);
  }

  lemma AscendingAt(rs: seq<CandidateRange>, k: nat)
    requires StartsAscend(rs) && AllProper(rs) && k < |rs|
    ensures rs[k].start < rs[k].end && (k > 0 ==> rs[k - 1].start <= rs[k].start)
  {
  }

  lemma NothingMerged()
    ensures Merged([], [])
  {
  }

  lemma SortedProper(rs: seq<CandidateRange>, sorted: seq<CandidateRange>)
    requires AllProper(rs) && forall x :: x in sorted ==> x in rs
    ensures AllProper(sorted)
  {
    forall k | 0 <= k < |sorted| ensures sorted[k].start < sorted[k].end {
      assert sorted[k] in rs;
    }
  }

  /** What `Merged` says does not depend on the order of the inputs. */
  lemma MergedSameElements(current: seq<CandidateRange>, incoming: seq<CandidateRange>, sorted: seq<CandidateRange>,
                           out: seq<CandidateRange>)
    requires Merged(sorted, out) && forall x :: x in sorted <==> x in current + incoming
    ensures Disjoint(out) && NoneLost(current, out) && NoneLost(incoming, out)
    ensures forall b: nat :: AnyContains(out, b) <==> AnyContains(current, b) || AnyContains(incoming, b)
    ensures ExtentsAsked(current + incoming, out)
  {
    hide RangesCover;
    var all := current + incoming;
    forall r | r in all ensures RangesCover(out, r.start, r.end, r.extent) {
      var k :| 0 <= k < |sorted| && sorted[k] == r;
    }
    assert forall k :: 0 <= k < |current| ==> current[k] in all;
    assert forall k :: 0 <= k < |incoming| ==> incoming[k] in all by {
      assert forall k :: 0 <= k < |incoming| ==> all[|current| + k] == incoming[k];
    }
    forall b: nat ensures AnyContains(out, b) <==> AnyContains(current, b) || AnyContains(incoming, b) {
      SameElementsSameBlocks(all, sorted, b);
      InRangesAppend(current, incoming, b);
    }
    forall m | 0 <= m < |out| ensures Asked(all, out[m]) {
      assert Asked(sorted, out[m]);
    }
  }

  lemma SameElementsSameBlocks(a: seq<CandidateRange>, b: seq<CandidateRange>, block: nat)
    requires forall x :: x in a <==> x in b
    ensures AnyContains(a, block) <==> AnyContains(b, block)
  {
    if k :| 0 <= k < |a| && Contains(a[k], block) {
      assert a[k] in b;
    }
    if k :| 0 <= k < |b| && Contains(b[k], block) {
      assert b[k] in a;
    }
  }
}
