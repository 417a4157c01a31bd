/**
 The candidate pipeline from plans to per-document ranges, and its end-to-end guarantee: no match is
 lost between the query and the reported ranges (crates/index/src/candidate.rs).
 */
module CandidateSearch {
  import opened Wrappers
  import opened BlockSpace
  import opened Sorting
  import opened Slices
  import opened Hirs
  import opened Grams
  import opened TextGrams
  import opened QueryPlan
  import opened Eval
  import opened Candidate
  import opened CandidateRanges

  /** Documents with the ranges to read; `None` asks for the whole document. */
  type Report = seq<(nat, Option<seq<CandidateRange>>)>

  ghost predicate Reports(list: Report, d: nat, lo: nat, hi: nat, extent: Extent) {
    exists k :: 0 <= k < |list| && list[k].0 == d && (list[k].1.None? || RangesCover(list[k].1.value, lo, hi, extent))
  }

  ghost predicate ReportOk(list: Report) {
    forall k :: 0 <= k < |list| && list[k].1.Some? ==> AllProper(list[k].1.value)
  }

  ghost predicate SelectedBlock(ids: seq<nat>, bases: seq<nat>, d: nat, b: nat) {
    d + 1 < |bases| && bases[d] + b < bases[d + 1] && bases[d] + b in ids
  }

  /** Blocks `[lo, hi)` of document `d` are all selected. */
  ghost predicate Selected(ids: seq<nat>, bases: seq<nat>, d: nat, lo: nat, hi: nat) {
    lo < hi && forall b :: lo <= b < hi ==> SelectedBlock(ids, bases, d, b)
  }

  ghost predicate HasSelected(ids: seq<nat>, bases: seq<nat>, d: nat) {
    exists b: nat :: SelectedBlock(ids, bases, d, b)
  }

  /** Every listed document has a selected block. */
  ghost predicate OnlySelected(list: Report, ids: seq<nat>, bases: seq<nat>) {
    forall k :: 0 <= k < |list| ==> HasSelected(ids, bases, list[k].0)
  }

  /** A reported range of the document contains the block. */
  ghost predicate BlockListed(list: Report, d: nat, b: nat) {
    exists k :: 0 <= k < |list| && list[k].0 == d && list[k].1.Some? && AnyContains(list[k].1.value, b)
  }

  ghost predicate WholeListed(list: Report, d: nat) {
    exists k :: 0 <= k < |list| && list[k] == (d, None)
  }

  ghost predicate Filled(ranges: seq<CandidateRange>) { exists b: nat :: AnyContains(ranges, b) }

  /** No document is listed for an empty list of ranges. */
  ghost predicate AllFilled(list: Report) {
    forall k :: 0 <= k < |list| && list[k].1.Some? ==> Filled(list[k].1.value)
  }

  /** Documents come in order and once each. */
  ghost predicate DocumentsAscend(list: Report) {
    forall i, j :: 0 <= i < j < |list| ==> list[i].0 < list[j].0
  }

  /** Only selected blocks are in the ranges, and documents are whole only for a document-wide extent. */
  ghost predicate ListsSelected(list: Report, ids: seq<nat>, bases: seq<nat>, extent: Extent) {
    && AllFilled(list) && DocumentsAscend(list)
    && (forall k :: 0 <= k < |list| ==> (list[k].1.None? <==> extent.Document?))
    && forall d: nat, b: nat :: BlockListed(list, d, b) ==> SelectedBlock(ids, bases, d, b)
  }

  // ---------------------------------------------------------------------------------------------
  // From a selection to documents

  function WholeDocuments(n: nat): (r: Report)
    ensures |r| == n && forall k :: 0 <= k < n ==> r[k] == (k, None)
  {
    if n == 0 then [] else WholeDocuments(n - 1) + [(n - 1, None)]
  }

  /** Drop a document equal to the one before it. */
  function DedupDocuments(list: seq<nat>): (r: seq<nat>)
    ensures forall d :: d in r <==> d in list
    ensures (forall i, j :: 0 <= i < j < |list| ==> list[i] <= list[j]) ==> forall i, j :: 0 <= i < j < |r| ==> r[i] < r[j]
    ensures list != [] ==> r != [] && r[|r| - 1] == list[|list| - 1]
  {
    if list == [] then []
    else
      var front, last := DedupDocuments(list[..|list| - 1]), list[|list| - 1];
      assert list == list[..|list| - 1] + [last];
      if front != [] && front[|front| - 1] == last then front else front + [last]
  }

  function AsWhole(docs: seq<nat>): (r: Report)
    ensures |r| == |docs| && forall k :: 0 <= k < |r| ==> r[k] == (docs[k], None)
  {
    if docs == [] then [] else AsWhole(docs[..|docs| - 1]) + [(docs[|docs| - 1], None)]
  }

  function AsRanges(groups: Groups): (r: Report)
    ensures |r| == |groups| && forall k :: 0 <= k < |r| ==> r[k] == (groups[k].0, Some(groups[k].1))
  {
    if groups == [] then [] else AsRanges(groups[..|groups| - 1]) + [(groups[|groups| - 1].0, Some(groups[|groups| - 1].1))]
  }

  /** Document-wide candidates of ascending block ids. */
  method BlockDocuments(ids: seq<nat>, bases: seq<nat>, ghost docs: seq<DocMeta>, ghost B: nat) returns (r: Result<Report>)
    requires B >= 1 && BasesOf(bases, docs, B)
    ensures r.Ok? <==> forall k :: 0 <= k < |ids| ==> ids[k] < bases[|docs|]
    ensures r.Ok? ==> ReportOk(r.value) && OnlySelected(r.value, ids, bases)
    ensures r.Ok? && StrictlySorted(IdLess, ids) ==> DocumentsAscend(r.value)
    ensures r.Ok? ==> forall k :: 0 <= k < |r.value| ==> r.value[k].1.None?
    ensures r.Ok? ==> forall d: nat, lo: nat, hi: nat, e :: Selected(ids, bases, d, lo, hi) ==> Reports(r.value, d, lo, hi, e)
  {
    var total := bases[|bases| - 1];
    var owners: seq<nat> := [];
    for k := 0 to |ids|
      invariant forall m :: 0 <= m < k ==> ids[m] < total
      invariant |owners| == k && forall m :: 0 <= m < k ==> Owner(ids[m], bases, owners[m])
    {
      if ids[k] >= total {
        return Err;
      }
      BlockDocumentOwns(ids[k], bases, docs, B);
      owners := owners + [GetBlockDocument(ids[k], bases)];
    }
    OwnersAscend(ids, bases, docs, B, owners);
    var kept := DedupDocuments(owners);
    var list := AsWhole(kept);
    OwnersReported(ids, bases, docs, B, owners, list);
    return Ok(list);
  }

  predicate Owner(id: nat, bases: seq<nat>, d: nat) {
    d + 1 < |bases| && bases[d] <= id < bases[d + 1]
  }

  lemma OwnersAscend(ids: seq<nat>, bases: seq<nat>, docs: seq<DocMeta>, B: nat, owners: seq<nat>)
    requires B >= 1 && BasesOf(bases, docs, B)
    requires |owners| == |ids| && forall m :: 0 <= m < |ids| ==> Owner(ids[m], bases, owners[m])
    ensures StrictlySorted(IdLess, ids) ==> forall i, j :: 0 <= i < j < |owners| ==> owners[i] <= owners[j]
  {
    if StrictlySorted(IdLess, ids) {
      forall i, j | 0 <= i < j < |owners| ensures owners[i] <= owners[j] {
        assert IdLess(ids[i], ids[j]) && Owner(ids[i], bases, owners[i]) && Owner(ids[j], bases, owners[j]);
        if owners[j] < owners[i] {
          BasesAscend(docs, B, owners[j] + 1, owners[i]);
        }
      }
    }
  }

  lemma OwnersReported(ids: seq<nat>, bases: seq<nat>, docs: seq<DocMeta>, B: nat, owners: seq<nat>, list: Report)
    requires B >= 1 && BasesOf(bases, docs, B)
    requires |owners| == |ids| && forall m :: 0 <= m < |ids| ==> Owner(ids[m], bases, owners[m])
    requires forall d :: d in owners <==> (d, None) in list
    requires forall k :: 0 <= k < |list| ==> list[k].1.None?
    ensures OnlySelected(list, ids, bases)
    ensures forall d: nat, lo: nat, hi: nat, e :: Selected(ids, bases, d, lo, hi) ==> Reports(list, d, lo, hi, e)
  {
    forall k | 0 <= k < |list| ensures HasSelected(ids, bases, list[k].0) {
      assert (list[k].0, None) in list;
      var m :| 0 <= m < |owners| && owners[m] == list[k].0;
      assert Owner(ids[m], bases, owners[m]);
      assert SelectedBlock(ids, bases, list[k].0, ids[m] - bases[owners[m]]);
    }
    forall d: nat, lo: nat, hi: nat, e | Selected(ids, bases, d, lo, hi) ensures Reports(list, d, lo, hi, e) {
      assert SelectedBlock(ids, bases, d, lo);
      var m :| 0 <= m < |ids| && ids[m] == bases[d] + lo;
      assert Owner(ids[m], bases, owners[m]);
      BasesAscend(docs, B, d + 1, |docs|);
      BlockDocumentUnique(ids[m], bases, docs, B, d);
      BlockDocumentUnique(ids[m], bases, docs, B, owners[m]);
      assert (d, None) in list;
    }
  }

  lemma GroupsReported(groups: Groups, ids: seq<nat>, bases: seq<nat>, extent: Extent, list: Report)
    requires GroupsOk(groups, bases, extent) && GroupsMatch(groups, ids, bases)
    requires |list| == |groups| && forall k :: 0 <= k < |list| ==> list[k] == (groups[k].0, Some(groups[k].1))
    ensures ReportOk(list) && OnlySelected(list, ids, bases)
    ensures !extent.Document? ==> ListsSelected(list, ids, bases, extent)
    ensures forall d: nat, lo: nat, hi: nat :: Selected(ids, bases, d, lo, hi) ==> Reports(list, d, lo, hi, extent)
  {
    GroupsListed(groups, ids, bases, extent, list);
    forall k | 0 <= k < |list| ensures HasSelected(ids, bases, list[k].0) {
      var b := groups[k].1[0].start;
      assert Contains(groups[k].1[0], b);
      assert InGroups(groups, groups[k].0, b);
      assert SelectedBlock(ids, bases, list[k].0, b);
    }
    forall d: nat, lo: nat, hi: nat | Selected(ids, bases, d, lo, hi) ensures Reports(list, d, lo, hi, extent) {
      RunGrouped(groups, ids, bases, extent, d, lo, hi);
    }
  }

  lemma GroupsListed(groups: Groups, ids: seq<nat>, bases: seq<nat>, extent: Extent, list: Report)
    requires GroupsOk(groups, bases, extent) && GroupsMatch(groups, ids, bases)
    requires |list| == |groups| && forall k :: 0 <= k < |list| ==> list[k] == (groups[k].0, Some(groups[k].1))
    ensures !extent.Document? ==> ListsSelected(list, ids, bases, extent)
  {
    forall k | 0 <= k < |list| ensures Filled(list[k].1.value) {
      assert Contains(groups[k].1[0], groups[k].1[0].start);
      assert AnyContains(groups[k].1, groups[k].1[0].start);
    }
    hide AnyContains, Maximal;
    forall d: nat, b: nat | BlockListed(list, d, b) ensures SelectedBlock(ids, bases, d, b) {
      assert InGroups(groups, d, b);
    }
  }

  lemma RunGrouped(groups: Groups, ids: seq<nat>, bases: seq<nat>, extent: Extent, d: nat, lo: nat, hi: nat)
    requires GroupsOk(groups, bases, extent) && GroupsMatch(groups, ids, bases) && Selected(ids, bases, d, lo, hi)
    ensures exists g :: 0 <= g < |groups| && groups[g].0 == d && RangesCover(groups[g].1, lo, hi, extent)
  {
    hide AnyContains, Maximal, RangesCover;
    assert SelectedBlock(ids, bases, d, lo);
    assert InGroups(groups, d, lo);
    var g :| 0 <= g < |groups| && groups[g].0 == d && AnyContains(groups[g].1, lo);
    forall b | lo <= b < hi ensures AnyContains(groups[g].1, b) {
      assert SelectedBlock(ids, bases, d, b);
      assert InGroups(groups, d, b);
      var h :| 0 <= h < |groups| && groups[h].0 == d && AnyContains(groups[h].1, b);
      assert h == g;
    }
    RunInOneRange(groups[g].1, extent, lo, hi);
  }

  ghost predicate IndexOk(bases: Option<seq<nat>>, docs: seq<DocMeta>, B: nat) {
    B >= 1 && (bases.Some? ==> BasesOf(bases.value, docs, B))
  }

  /** `candidate_documents`. */
  method CandidateDocuments(selection: Selection, extent: Extent, strategy: Strategy, documentCount: nat,
                            bases: Option<seq<nat>>, ghost docs: seq<DocMeta>, ghost B: nat)
    returns (r: Result<Report>)
    requires IndexOk(bases, docs, B) && (selection.Ids? ==> StrictlySorted(IdLess, selection.ids))
    ensures selection.SelAll? ==> r == Ok(WholeDocuments(documentCount))
    ensures selection.Ids? && strategy == Sparse ==>
              r == if forall k :: 0 <= k < |selection.ids| ==> selection.ids[k] < documentCount
                   then Ok(AsWhole(selection.ids)) else Err
    ensures selection.Ids? && strategy == Trigram ==>
              (r.Ok? <==> bases.Some? && forall k :: 0 <= k < |selection.ids| ==> selection.ids[k] < bases.value[|docs|])
    ensures selection.Ids? && strategy == Trigram && r.Ok? ==>
              && OnlySelected(r.value, selection.ids, bases.value)
              && forall d: nat, lo: nat, hi: nat ::
                   Selected(selection.ids, bases.value, d, lo, hi) ==> Reports(r.value, d, lo, hi, extent)
    ensures selection.Ids? && strategy == Trigram && r.Ok? ==> ListsSelected(r.value, selection.ids, bases.value, extent)
    ensures r.Ok? ==> ReportOk(r.value) && (selection.SelAll? || strategy == Sparse ==> DocumentsAscend(r.value))
  {
    assert strategy == Sparse && selection.Ids? ==> DocumentsAscend(AsWhole(selection.ids)) by { if selection.Ids? { SortedDocuments(selection.ids); } }
    hide OnlySelected, Selected, Reports, BasesOf, StrictlySorted, GroupsOk, GroupsMatch;
    if selection.SelAll? {
      return Ok(WholeDocuments(documentCount));
    }
    var ids := selection.ids;
    if strategy == Sparse {
      for k := 0 to |ids|
        invariant forall m :: 0 <= m < k ==> ids[m] < documentCount
      {
        if ids[k] >= documentCount {
          return Err;
        }
      }
      return Ok(AsWhole(ids));
    }
    if bases.None? {
      return Err;
    }
    if extent.Document? {
      r := BlockDocuments(ids, bases.value, docs, B);
      if r.Ok? {
        WholeLists(r.value, ids, bases.value, extent);
      }
      return;
    }
    var groups := GroupCandidateBlocks(ids, bases.value, docs, B, extent);
    if groups.Err? {
      return Err;
    }
    GroupsReported(groups.value, ids, bases.value, extent, AsRanges(groups.value));
    return Ok(AsRanges(groups.value));
  }

  lemma SortedDocuments(ids: seq<nat>)
    ensures StrictlySorted(IdLess, ids) ==> DocumentsAscend(AsWhole(ids))
  {
    if StrictlySorted(IdLess, ids) {
      forall i, j | 0 <= i < j < |ids| ensures AsWhole(ids)[i].0 < AsWhole(ids)[j].0 {
        assert IdLess(ids[i], ids[j]);
      }
    }
  }

  lemma WholeLists(list: Report, ids: seq<nat>, bases: seq<nat>, extent: Extent)
    requires extent.Document? && DocumentsAscend(list) && forall k :: 0 <= k < |list| ==> list[k].1.None?
    ensures ListsSelected(list, ids, bases, extent)
  {
  }

  // ---------------------------------------------------------------------------------------------
  // Several patterns into one map

  type Candidates = map<nat, Option<seq<CandidateRange>>>

  /** The document is read whole, or `[lo, hi)` lies in one range at least as broad. */
  ghost predicate Covers(c: Candidates, d: nat, lo: nat, hi: nat, extent: Extent) {
    d in c && (c[d].None? || RangesCover(c[d].value, lo, hi, extent))
  }

  ghost predicate CandidatesOk(c: Candidates) {
    forall d :: d in c && c[d].Some? ==> AllProper(c[d].value)
  }

  ghost predicate MapBlock(c: Candidates, d: nat, b: nat) { d in c && c[d].Some? && AnyContains(c[d].value, b) }

  ghost predicate MapWhole(c: Candidates, d: nat) { d in c && c[d].None? }

  ghost predicate MapFilled(c: Candidates) { forall d :: d in c && c[d].Some? ==> Filled(c[d].value) }

  /** One entry of a report goes into the map; a whole-document entry stays whole. */
  method AddDocument(c: Candidates, d: nat, ranges: Option<seq<CandidateRange>>) returns (c': Candidates)
    requires CandidatesOk(c) && (ranges.Some? ==> AllProper(ranges.value))
    ensures CandidatesOk(c') && c'.Keys == c.Keys + {d}
    ensures forall x: nat, lo: nat, hi: nat, e :: Covers(c, x, lo, hi, e) ==> Covers(c', x, lo, hi, e)
    ensures forall lo: nat, hi: nat, e ::
              (ranges.None? || RangesCover(ranges.value, lo, hi, e)) ==> Covers(c', d, lo, hi, e)
    ensures forall x :: MapWhole(c', x) <==> MapWhole(c, x) || (x == d && ranges.None?)
    ensures forall x, b: nat :: MapBlock(c', x, b) ==> MapBlock(c, x, b) || (x == d && ranges.Some? && AnyContains(ranges.value, b))
    ensures MapFilled(c) && (ranges.Some? ==> Filled(ranges.value)) ==> MapFilled(c')
  {
    hide RangesCover, AllProper, AnyContains;
    if ranges.None? {
      return c[d := None];
    }
    var current := if d in c then c[d] else Some([]);
    if current.None? {
      return c;
    }
    EmptyProper();
    var merged := MergeCandidateRanges(current.value, ranges.value);
    c' := c[d := Some(merged)];
    MergedCovers(current.value, merged);
    MergedCovers(ranges.value, merged);
    assert AllProper(merged) by { DisjointProper(merged); }
    NothingCovered();
    NothingContained();
  }

  lemma EmptyProper()
    ensures AllProper([])
  {
  }

  lemma NothingContained()
    ensures forall b: nat :: !AnyContains([], b)
  {
  }

  lemma NothingCovered()
    ensures forall lo: nat, hi: nat, e :: !RangesCover([], lo, hi, e)
  {
  }

  lemma DisjointProper(rs: seq<CandidateRange>)
    requires Disjoint(rs)
    ensures AllProper(rs)
  {
  }

  lemma MergedCovers(inputs: seq<CandidateRange>, out: seq<CandidateRange>)
    requires NoneLost(inputs, out)
    ensures forall lo: nat, hi: nat, e :: RangesCover(inputs, lo, hi, e) ==> RangesCover(out, lo, hi, e)
  {
    forall lo: nat, hi: nat, e | RangesCover(inputs, lo, hi, e) ensures RangesCover(out, lo, hi, e) {
      CoverTransfers(inputs, out, lo, hi, e);
    }
  }

  /** The loop of `add_candidate_selection`. */
  method AddReport(c: Candidates, list: Report) returns (c': Candidates)
    requires CandidatesOk(c) && ReportOk(list)
    ensures CandidatesOk(c')
    ensures forall d: nat, lo: nat, hi: nat, e :: Covers(c, d, lo, hi, e) ==> Covers(c', d, lo, hi, e)
    ensures forall d: nat, lo: nat, hi: nat, e :: Reports(list, d, lo, hi, e) ==> Covers(c', d, lo, hi, e)
    ensures forall d :: d in c' <==> d in c || exists k :: 0 <= k < |list| && list[k].0 == d
    ensures forall d :: MapWhole(c', d) ==> MapWhole(c, d) || WholeListed(list, d)
    ensures forall d, b: nat :: MapBlock(c', d, b) ==> MapBlock(c, d, b) || BlockListed(list, d, b)
    ensures MapFilled(c) && AllFilled(list) ==> MapFilled(c')
  {
    hide RangesCover, AllProper, Covers, AnyContains, Filled, MapBlock, MapWhole, MapFilled;
    c' := c;
    for k := 0 to |list|
      invariant CandidatesOk(c')
      invariant forall d: nat, lo: nat, hi: nat, e :: Covers(c, d, lo, hi, e) ==> Covers(c', d, lo, hi, e)
      invariant forall m, lo: nat, hi: nat, e ::
                  0 <= m < k && (list[m].1.None? || RangesCover(list[m].1.value, lo, hi, e)) ==> Covers(c', list[m].0, lo, hi, e)
      invariant forall d :: d in c' <==> d in c || exists m :: 0 <= m < k && list[m].0 == d
      invariant forall d :: MapWhole(c', d) ==> MapWhole(c, d) || WholeListed(list, d)
      invariant forall d, b: nat :: MapBlock(c', d, b) ==> MapBlock(c, d, b) || BlockListed(list, d, b)
      invariant MapFilled(c) && AllFilled(list) ==> MapFilled(c')
    {
      Listing(list, k);
      c' := AddDocument(c', list[k].0, list[k].1);
    }
  }

  lemma Listing(list: Report, k: nat)
    requires k < |list|
    ensures list[k].1.None? ==> WholeListed(list, list[k].0)
    ensures forall b: nat :: list[k].1.Some? && AnyContains(list[k].1.value, b) ==> BlockListed(list, list[k].0, b)
  {
    hide AnyContains;
  }

  // ---------------------------------------------------------------------------------------------
  // End to end

  /** The posting lists hold every block a trigram of the documents starts in. */
  ghost predicate BlockPostingsComplete(d: Dictionary, contents: seq<seq<Byte>>, bases: seq<nat>, B: nat)
    requires B >= 1 && |bases| == |contents| + 1
  {
    forall k, b: nat, g ::
      0 <= k < |contents| && TrigramInBlock(contents[k], B, b, g) ==> bases[k] + b in d.postings(g)
  }

  /** The grams behind a query that holds put an id in its exact meaning. */
  lemma {:induction false} HoldsPutsInExact(q: Query, grams: iset<Gram>, d: Dictionary, expand: Expand, x: nat)
    requires QueryPlan.Holds(q, grams)
    requires forall g :: g in grams ==> HasExpansion(d.postings(g), expand, x)
    ensures InExact(q, d, expand, x)
    decreases q
  {
    match q
    case And(subs) =>
      forall k | 0 <= k < |subs| ensures InExact(subs[k], d, expand, x) {
        HoldsPutsInExact(subs[k], grams, d, expand, x);
      }
    case Or(subs) =>
      var k :| 0 <= k < |subs| && QueryPlan.Holds(subs[k], grams);
      HoldsPutsInExact(subs[k], grams, d, expand, x);
    case _ =>
  }

  /** The reader's expansion for a plan's extent. */
  function PlanExpand(bases: seq<nat>, docs: seq<DocMeta>, extent: Extent, B: nat): nat -> (nat, nat)
    requires B >= 1 && BasesOf(bases, docs, B) && (extent.Bytes? ==> extent.span >= 1)
  {
    (id: nat) => if id < BlockBase(docs, B, |docs|) then ExpandBlock(id, bases, docs, extent, B) else (id, id)
  }

  /** The documents of one trigram segment with everything the reader knows about them. */
  datatype Segment = Segment(contents: seq<seq<Byte>>, docs: seq<DocMeta>, bases: seq<nat>, dict: Dictionary)

  ghost predicate SegmentOk(s: Segment, B: nat) {
    && B >= 1 && |s.docs| == |s.contents|
    && (forall k :: 0 <= k < |s.docs| ==> Describes(s.docs[k], s.contents[k]))
    && BasesOf(s.bases, s.docs, B) && BlockBase(s.docs, B, |s.docs|) <= U32_MAX
    && s.dict.idSpace == BlockBase(s.docs, B, |s.docs|)
    && DictionaryOk(s.dict) && BlockPostingsComplete(s.dict, s.contents, s.bases, B)
  }

  ghost predicate ExtentOk(extent: Extent) { extent.Bytes? ==> extent.span >= 1 }

  ghost function SegmentExpand(s: Segment, B: nat, extent: Extent): Expand
    requires SegmentOk(s, B) && ExtentOk(extent)
  {
    Some(PlanExpand(s.bases, s.docs, extent, B))
  }

  /** A trigram of the matched stretch puts every block the match touches in its expansion. */
  lemma GramReachesBlock(s: Segment, B: nat, doc: nat, extent: Extent, i: nat, j: nat, x: nat, g: Gram)
    requires SegmentOk(s, B) && ExtentOk(extent) && doc < |s.contents|
    requires i <= x < j <= |s.contents[doc]| && Fits(extent, s.contents[doc], i, j)
    requires TrigramOf(s.contents[doc][i..j], g)
    ensures HasExpansion(s.dict.postings(g), SegmentExpand(s, B, extent), s.bases[doc] + BlockAt(x, B))
  {
    hide DictionaryOk, Fits, ExpandBlock, LongestLine, BlockBase, BlockAt;
    var t := s.contents[doc];
    var p :| TrigramAt(t[i..j], p, g);
    SliceOfSlice(t, i, j, p, p + 3);
    assert TrigramAt(t, i + p, g);
    assert TrigramInBlock(t, B, BlockAt(i + p, B), g);
    ExpansionCoversMatch(s.docs, s.bases, B, doc, extent, t, i, j, i + p, x);
    var ids := s.dict.postings(g);
    var k :| 0 <= k < |ids| && ids[k] == s.bases[doc] + BlockAt(i + p, B);
    assert InExpansion(SegmentExpand(s, B, extent), ids[k], s.bases[doc] + BlockAt(x, B));
  }

  /**
   Whatever the regex, every block of every match that fits the plan's extent is in the exact
   meaning of the planned query - the expansion happens at the leaves, before any intersection.
   */
  lemma TouchedBlocksSelected(h: Hir, p: Planner, look: LookAt, s: Segment, B: nat, doc: nat, extent: Extent,
                              i: nat, j: nat, x: nat)
    requires SegmentOk(s, B) && ExtentOk(extent) && doc < |s.contents|
    requires p.strategy == Trigram && ExtractorSound(p.extract, look)
    requires i <= x < j <= |s.contents[doc]| && Fits(extent, s.contents[doc], i, j)
    requires Matches(h, look, s.contents[doc], i, j)
    ensures InExact(HirQuery(h, p), s.dict, SegmentExpand(s, B, extent), s.bases[doc] + BlockAt(x, B))
  {
    SegmentBases(s, B);
    hide SegmentOk, HirQuery, Matches, ExtractorSound, Fits, SegmentExpand, InExact, HasExpansion, TrigramOf;
    var t := s.contents[doc];
    PlanSound(h, p, look, t, i, j);
    var grams := GramSet(t[i..j], p);
    forall g | g in grams
      ensures HasExpansion(s.dict.postings(g), SegmentExpand(s, B, extent), s.bases[doc] + BlockAt(x, B))
    {
      GramReachesBlock(s, B, doc, extent, i, j, x, g);
    }
    HoldsPutsInExact(HirQuery(h, p), grams, s.dict, SegmentExpand(s, B, extent),
                     s.bases[doc] + BlockAt(x, B));
  }

  lemma SegmentBases(s: Segment, B: nat)
    requires SegmentOk(s, B)
    ensures B >= 1 && BasesOf(s.bases, s.docs, B) && |s.bases| == |s.docs| + 1 == |s.contents| + 1
  {
  }

  datatype Plan = Plan(query: Query, extent: Extent)

  /** Blocks `[lo, hi)` of a document are in the exact meaning of the plan. */
  ghost predicate Chosen(plan: Plan, s: Segment, B: nat, doc: nat, lo: nat, hi: nat)
    requires SegmentOk(s, B) && ExtentOk(plan.extent)
  {
    doc < |s.docs| && lo < hi && forall b :: lo <= b < hi ==> ChosenBlock(plan, s, B, doc, b)
  }

  ghost predicate ChosenBlock(plan: Plan, s: Segment, B: nat, doc: nat, b: nat)
    requires SegmentOk(s, B) && ExtentOk(plan.extent)
  {
    && doc < |s.docs| && s.bases[doc] + b < s.bases[doc + 1]
    && InExact(plan.query, s.dict, SegmentExpand(s, B, plan.extent), s.bases[doc] + b)
  }

  /** Every run of chosen blocks is reported: in one range at least as broad, or as a whole document. */
  ghost predicate PlanCovered(plan: Plan, s: Segment, B: nat, list: Report)
    requires SegmentOk(s, B) && ExtentOk(plan.extent)
  {
    forall doc: nat, lo: nat, hi: nat ::
      Chosen(plan, s, B, doc, lo, hi) ==> Reports(list, doc, lo, hi, plan.extent)
  }

  /** The block is in the meaning of the plan's query after resolution and pruning. */
  ghost predicate InMeaning(plan: Plan, s: Segment, B: nat, x: nat)
    requires SegmentOk(s, B) && ExtentOk(plan.extent)
  {
    var r := Resolve(plan.query, s.dict.idSpace, Trigram, s.dict.lookup);
    r.Ok? && InResolved(r.value, s.dict, SegmentExpand(s, B, plan.extent), x)
  }

  /** The plan rules nothing out. */
  ghost predicate Everything(plan: Plan, s: Segment, B: nat)
    requires SegmentOk(s, B) && ExtentOk(plan.extent)
  {
    forall x: nat :: InMeaning(plan, s, B, x)
  }

  /** Block `b` of document `d` is in the plan's meaning. */
  ghost predicate Meant(plan: Plan, s: Segment, B: nat, d: nat, b: nat)
    requires SegmentOk(s, B) && ExtentOk(plan.extent)
  {
    d + 1 < |s.bases| && s.bases[d] + b < s.bases[d + 1] && InMeaning(plan, s, B, s.bases[d] + b)
  }

  /** Why a document may be read whole for a plan: it rules nothing out, or asks for whole documents and means this one. */
  ghost predicate WholeFor(plan: Plan, s: Segment, B: nat, d: nat)
    requires SegmentOk(s, B) && ExtentOk(plan.extent)
  {
    Everything(plan, s, B) || (plan.extent.Document? && exists b: nat :: Meant(plan, s, B, d, b))
  }

  ghost predicate PlansOk(plans: seq<Plan>) { forall k :: 0 <= k < |plans| ==> ExtentOk(plans[k].extent) }

  /** Nothing is reported without a plan that means it. */
  ghost predicate Justified(plans: seq<Plan>, s: Segment, B: nat, list: Report)
    requires SegmentOk(s, B) && PlansOk(plans)
  {
    && AllFilled(list) && DocumentsAscend(list)
    && (forall d :: WholeListed(list, d) ==> exists k :: 0 <= k < |plans| && WholeFor(plans[k], s, B, d))
    && (forall d, b: nat :: BlockListed(list, d, b) ==> exists k :: 0 <= k < |plans| && Meant(plans[k], s, B, d, b))
  }

  /** The same for one plan. */
  ghost predicate JustifiedBy(plan: Plan, s: Segment, B: nat, list: Report)
    requires SegmentOk(s, B) && ExtentOk(plan.extent)
  {
    && AllFilled(list) && DocumentsAscend(list)
    && (forall d :: WholeListed(list, d) ==> WholeFor(plan, s, B, d))
    && (forall d, b: nat :: BlockListed(list, d, b) ==> Meant(plan, s, B, d, b))
  }

  ghost predicate MapJustified(plans: seq<Plan>, n: nat, s: Segment, B: nat, c: Candidates)
    requires SegmentOk(s, B) && PlansOk(plans) && n <= |plans|
  {
    && MapFilled(c)
    && (forall d :: MapWhole(c, d) ==> exists k :: 0 <= k < n && WholeFor(plans[k], s, B, d))
    && (forall d, b: nat :: MapBlock(c, d, b) ==> exists k :: 0 <= k < n && Meant(plans[k], s, B, d, b))
  }

  ghost predicate PlanInMap(plan: Plan, s: Segment, B: nat, c: Candidates)
    requires SegmentOk(s, B) && ExtentOk(plan.extent)
  {
    forall doc: nat, lo: nat, hi: nat ::
      Chosen(plan, s, B, doc, lo, hi) ==> Covers(c, doc, lo, hi, plan.extent)
  }

  /** `fetch_blocks`: the posting lists of the needed offsets. */
  function FetchBlocks(needed: map<nat, (nat, nat)>, d: Dictionary): Blocks {
    map o | o in needed :: d.store(o)
  }

  /** What decoding guarantees of every fetched list: strictly ascending ids inside the id space. */
  ghost predicate StoreOk(d: Dictionary) {
    forall o :: StrictlySorted(IdLess, d.store(o)) && IdsBelow(d.store(o), d.idSpace)
  }

  /** Expansions of one segment stay inside its id space. */
  lemma SegmentExpandBelow(s: Segment, B: nat, extent: Extent)
    requires SegmentOk(s, B) && ExtentOk(extent)
    ensures ExpandsBelow(SegmentExpand(s, B, extent), s.dict.idSpace)
  {
    hide DictionaryOk, ExpandBlock, BlockPostingsComplete, Describes;
    forall y: nat, x: nat | y < s.dict.idSpace && InExpansion(SegmentExpand(s, B, extent), y, x) ensures x < s.dict.idSpace {
      ExpansionInDocument(y, s.bases, s.docs, extent, B);
      BasesAscend(s.docs, B, GetBlockDocument(y, s.bases) + 1, |s.docs|);
    }
  }

  /** What the selection of one plan promises. */
  ghost predicate SelectionOk(plan: Plan, s: Segment, B: nat, sel: Selection)
    requires SegmentOk(s, B) && ExtentOk(plan.extent)
  {
    sel.Ids? ==>
      && StrictlySorted(IdLess, sel.ids) && IdsBelow(sel.ids, s.dict.idSpace)
      && forall x :: InExact(plan.query, s.dict, SegmentExpand(s, B, plan.extent), x) ==> x in sel.ids
  }

  lemma SelectionIsOk(plan: Plan, s: Segment, B: nat, blocks: Blocks)
    requires SegmentOk(s, B) && StoreOk(s.dict) && ExtentOk(plan.extent)
    requires forall o :: o in blocks ==> blocks[o] == s.dict.store(o)
    requires var r := Resolve(plan.query, s.dict.idSpace, Trigram, s.dict.lookup);
             r.Ok? ==> BlocksNeeded(r.value).Keys <= blocks.Keys
    ensures var r := Resolve(plan.query, s.dict.idSpace, Trigram, s.dict.lookup);
            && r.Ok? && Evaluate(r.value, blocks, SegmentExpand(s, B, plan.extent)).Ok?
            && SelectionOk(plan, s, B, Evaluate(r.value, blocks, SegmentExpand(s, B, plan.extent)).value)
  {
    SegmentExpandBelow(s, B, plan.extent);
    assert BlocksOk(blocks, s.dict) && BlocksBelow(blocks, s.dict.idSpace);
    assert DictionaryOk(s.dict);
    hide DictionaryOk, Resolve, Evaluate, InExact, BlocksNeeded, BlocksOk, BlocksBelow, ExpandsBelow, SegmentOk, StoreOk, SegmentExpand, NothingDropped;
    SelectionSound(plan.query, s.dict, Trigram, blocks, SegmentExpand(s, B, plan.extent));
    ResolveDocsBelow(plan.query, s.dict.idSpace, Trigram, s.dict.lookup);
    var r := Resolve(plan.query, s.dict.idSpace, Trigram, s.dict.lookup).value;
    EvaluateBelow(r, blocks, SegmentExpand(s, B, plan.extent), s.dict.idSpace);
  }

  ghost predicate DocumentsBelow(list: Report, n: nat) {
    forall k :: 0 <= k < |list| ==> list[k].0 < n
  }

  /** Everything the plan chose is in the documents its selection turns into. */
  lemma ReportCoversPlan(plan: Plan, s: Segment, B: nat, sel: Selection, list: Report)
    requires SegmentOk(s, B) && ExtentOk(plan.extent) && SelectionOk(plan, s, B, sel)
    requires sel.SelAll? ==> list == WholeDocuments(|s.docs|)
    requires sel.Ids? ==>
               && OnlySelected(list, sel.ids, s.bases)
               && forall d: nat, lo: nat, hi: nat ::
                    Selected(sel.ids, s.bases, d, lo, hi) ==> Reports(list, d, lo, hi, plan.extent)
    ensures PlanCovered(plan, s, B, list) && DocumentsBelow(list, |s.docs|)
  {
    SegmentBases(s, B);
    hide SegmentOk, InExact, SegmentExpand, RangesCover, BasesOf;
    forall doc: nat, lo: nat, hi: nat | Chosen(plan, s, B, doc, lo, hi) ensures Reports(list, doc, lo, hi, plan.extent) {
      if sel.SelAll? {
        assert list[doc] == (doc, None);
      } else {
        forall b | lo <= b < hi ensures SelectedBlock(sel.ids, s.bases, doc, b) {
          assert ChosenBlock(plan, s, B, doc, b);
        }
        assert Selected(sel.ids, s.bases, doc, lo, hi);
      }
    }
    if sel.Ids? {
      forall k | 0 <= k < |list| ensures list[k].0 < |s.docs| {
        assert HasSelected(sel.ids, s.bases, list[k].0);
      }
    }
  }

  /** What a selection says of the plan's meaning. */
  ghost predicate SelectsMeaning(plan: Plan, s: Segment, B: nat, sel: Selection)
    requires SegmentOk(s, B) && ExtentOk(plan.extent)
  {
    if sel.SelAll? then Everything(plan, s, B) else forall x :: x in sel.ids <==> InMeaning(plan, s, B, x)
  }

  lemma SelectionMeans(plan: Plan, s: Segment, B: nat, resolved: Resolved, blocks: Blocks)
    requires SegmentOk(s, B) && StoreOk(s.dict) && ExtentOk(plan.extent)
    requires forall o :: o in blocks ==> blocks[o] == s.dict.store(o)
    requires Resolve(plan.query, s.dict.idSpace, Trigram, s.dict.lookup) == Ok(resolved) && BlocksNeeded(resolved).Keys <= blocks.Keys
    ensures var sel := Evaluate(resolved, blocks, SegmentExpand(s, B, plan.extent)); sel.Ok? && SelectsMeaning(plan, s, B, sel.value)
  {
    assert BlocksOk(blocks, s.dict);
    hide Resolve, Evaluate, InResolved, BlocksNeeded, BlocksOk, SegmentOk, StoreOk, SegmentExpand;
    EvaluateMeans(resolved, blocks, s.dict, SegmentExpand(s, B, plan.extent));
  }

  /** What one plan's selection turns into says no more than the selection. */
  lemma ReportIsJustified(plan: Plan, s: Segment, B: nat, sel: Selection, list: Report)
    requires SegmentOk(s, B) && ExtentOk(plan.extent) && SelectsMeaning(plan, s, B, sel)
    requires sel.SelAll? ==> list == WholeDocuments(|s.docs|)
    requires sel.Ids? ==> OnlySelected(list, sel.ids, s.bases) && ListsSelected(list, sel.ids, s.bases, plan.extent)
    ensures JustifiedBy(plan, s, B, list)
  {
    hide SegmentOk, InMeaning, AnyContains, Filled;
    if sel.SelAll? {
      WholeIsJustified(|s.docs|);
    } else {
      forall d: nat | WholeListed(list, d) ensures WholeFor(plan, s, B, d) {
        var k :| 0 <= k < |list| && list[k] == (d, None);
        assert HasSelected(sel.ids, s.bases, list[k].0);
        var b: nat :| SelectedBlock(sel.ids, s.bases, d, b);
        assert Meant(plan, s, B, d, b);
      }
    }
  }

  lemma WholeIsJustified(n: nat)
    ensures AllFilled(WholeDocuments(n)) && DocumentsAscend(WholeDocuments(n))
    ensures forall d, b: nat :: !BlockListed(WholeDocuments(n), d, b)
  {
  }

  /** One plan: resolve, fetch, evaluate, and turn the selection into documents. */
  method SelectOnePlan(plan: Plan, s: Segment, B: nat) returns (r: Result<Report>)
    requires SegmentOk(s, B) && StoreOk(s.dict) && ExtentOk(plan.extent)
    ensures r.Ok? && ReportOk(r.value) && PlanCovered(plan, s, B, r.value) && DocumentsBelow(r.value, |s.docs|)
    ensures JustifiedBy(plan, s, B, r.value)
  {
    SegmentBases(s, B);
    var resolved := Resolve(plan.query, s.dict.idSpace, Trigram, s.dict.lookup);
    if resolved.Err? {
      SelectionIsOk(plan, s, B, map[]);
      return Err;
    }
    var needed := CollectBlocks(resolved.value, map[]);
    r := SelectWithBlocks(plan, s, B, resolved.value, FetchBlocks(needed, s.dict));
  }

  method SelectWithBlocks(plan: Plan, s: Segment, B: nat, resolved: Resolved, blocks: Blocks) returns (r: Result<Report>)
    requires SegmentOk(s, B) && StoreOk(s.dict) && ExtentOk(plan.extent)
    requires Resolve(plan.query, s.dict.idSpace, Trigram, s.dict.lookup) == Ok(resolved)
    requires BlocksNeeded(resolved).Keys <= blocks.Keys && forall o :: o in blocks ==> blocks[o] == s.dict.store(o)
    ensures r.Ok? && ReportOk(r.value) && PlanCovered(plan, s, B, r.value) && DocumentsBelow(r.value, |s.docs|)
    ensures JustifiedBy(plan, s, B, r.value)
  {
    SegmentBases(s, B);
    var expand := Some(PlanExpand(s.bases, s.docs, plan.extent, B));
    assert expand == SegmentExpand(s, B, plan.extent);
    SelectionIsOk(plan, s, B, blocks);
    SelectionMeans(plan, s, B, resolved, blocks);
    IdSpaceIsLastBase(s, B);
    hide ListsSelected, DocumentsAscend, SelectsMeaning, JustifiedBy, InMeaning;
    hide SegmentOk, Resolve, Evaluate, OnlySelected, Selected, Reports, PlanCovered, DocumentsBelow, ReportOk, SegmentExpand, PlanExpand, StoreOk, BasesOf;
    var sel := Evaluate(resolved, blocks, expand);
    var list := CandidateDocuments(sel.value, plan.extent, Trigram, |s.docs|, Some(s.bases), s.docs, B);
    assert list.Ok? by {
      if sel.value.Ids? {
        assert forall k :: 0 <= k < |sel.value.ids| ==> sel.value.ids[k] in sel.value.ids;
      }
    }
    ReportCoversPlan(plan, s, B, sel.value, list.value);
    ReportIsJustified(plan, s, B, sel.value, list.value);
    return list;
  }

  lemma IdSpaceIsLastBase(s: Segment, B: nat)
    requires SegmentOk(s, B)
    ensures |s.bases| == |s.docs| + 1 && s.bases[|s.docs|] == s.dict.idSpace
  {
  }

  /** Resolve every plan and collect the offsets all of them need. */
  method BindPlans(plans: seq<Plan>, s: Segment, B: nat) returns (bound: seq<Resolved>, needed: map<nat, (nat, nat)>)
    requires SegmentOk(s, B) && StoreOk(s.dict)
    ensures |bound| == |plans|
    ensures forall k :: 0 <= k < |plans| ==>
              && Resolve(plans[k].query, s.dict.idSpace, Trigram, s.dict.lookup) == Ok(bound[k])
              && BlocksNeeded(bound[k]).Keys <= needed.Keys
  {
    hide Resolve, BlocksNeeded, SegmentOk, StoreOk;
    bound, needed := [], map[];
    for k := 0 to |plans|
      invariant |bound| == k
      invariant forall m :: 0 <= m < k ==>
                  && Resolve(plans[m].query, s.dict.idSpace, Trigram, s.dict.lookup) == Ok(bound[m])
                  && BlocksNeeded(bound[m]).Keys <= needed.Keys
    {
      var resolved := Resolve(plans[k].query, s.dict.idSpace, Trigram, s.dict.lookup);
      ResolveSucceeds(plans[k], s, B);
      bound := bound + [resolved.value];
      needed := CollectBlocks(resolved.value, needed);
    }
  }

  lemma ResolveSucceeds(plan: Plan, s: Segment, B: nat)
    requires SegmentOk(s, B)
    ensures Resolve(plan.query, s.dict.idSpace, Trigram, s.dict.lookup).Ok?
  {
    ResolveSound(plan.query, s.dict, Trigram, None, 0);
  }

  /** A report covers into the map it is added to. */
  lemma PlanEntersMap(plan: Plan, s: Segment, B: nat, list: Report, c: Candidates)
    requires SegmentOk(s, B) && ExtentOk(plan.extent) && PlanCovered(plan, s, B, list)
    requires forall d: nat, lo: nat, hi: nat, e :: Reports(list, d, lo, hi, e) ==> Covers(c, d, lo, hi, e)
    ensures PlanInMap(plan, s, B, c)
  {
    hide SegmentOk, Chosen, Reports, Covers;
  }

  lemma PlanStaysInMap(plan: Plan, s: Segment, B: nat, c: Candidates, c': Candidates)
    requires SegmentOk(s, B) && ExtentOk(plan.extent) && PlanInMap(plan, s, B, c)
    requires forall d: nat, lo: nat, hi: nat, e :: Covers(c, d, lo, hi, e) ==> Covers(c', d, lo, hi, e)
    ensures PlanInMap(plan, s, B, c')
  {
    hide SegmentOk, Chosen, Covers;
  }

  /** The map in document order. */
  function MapEntries(c: Candidates, n: nat): (r: Report)
    ensures forall d :: d < n && d in c ==> (d, c[d]) in r
    ensures forall k :: 0 <= k < |r| ==> r[k].0 < n && r[k].0 in c && r[k].1 == c[r[k].0]
    ensures DocumentsAscend(r)
  {
    if n == 0 then [] else MapEntries(c, n - 1) + (if n - 1 in c then [(n - 1, c[n - 1])] else [])
  }

  lemma MapReported(plan: Plan, s: Segment, B: nat, c: Candidates, list: Report)
    requires SegmentOk(s, B) && ExtentOk(plan.extent) && PlanInMap(plan, s, B, c)
    requires forall d :: d < |s.docs| && d in c ==> (d, c[d]) in list
    ensures PlanCovered(plan, s, B, list)
  {
    hide SegmentOk, ChosenBlock, RangesCover;
    forall doc: nat, lo: nat, hi: nat | Chosen(plan, s, B, doc, lo, hi) ensures Reports(list, doc, lo, hi, plan.extent) {
      assert Covers(c, doc, lo, hi, plan.extent);
      var k :| 0 <= k < |list| && list[k] == (doc, c[doc]);
    }
  }

  /** The multi-plan loop: one fetch for all plans, then each plan's documents into the map. */
  method VisitPlans(plans: seq<Plan>, s: Segment, B: nat) returns (c: Candidates)
    requires SegmentOk(s, B) && StoreOk(s.dict) && forall k :: 0 <= k < |plans| ==> ExtentOk(plans[k].extent)
    ensures CandidatesOk(c) && forall k :: 0 <= k < |plans| ==> PlanInMap(plans[k], s, B, c)
    ensures MapJustified(plans, |plans|, s, B, c)
  {
    hide MapJustified, JustifiedBy, MapBlock, MapWhole, MapFilled, AllFilled, WholeListed, BlockListed;
    hide SegmentOk, StoreOk, Resolve, BlocksNeeded, PlanCovered, PlanInMap, Reports, Covers, ReportOk, CandidatesOk, DocumentsBelow;
    var bound, needed := BindPlans(plans, s, B);
    var blocks := FetchBlocks(needed, s.dict);
    c := map[];
    assert CandidatesOk(c) by { NoCandidates(); }
    NothingMapped(plans, s, B);
    for k := 0 to |plans|
      invariant CandidatesOk(c) && forall m :: 0 <= m < k ==> PlanInMap(plans[m], s, B, c)
      invariant MapJustified(plans, k, s, B, c)
    {
      var list := SelectWithBlocks(plans[k], s, B, bound[k], blocks);
      var next := AddReport(c, list.value);
      MapStaysJustified(plans, k, s, B, c, list.value, next);
      PlanEntersMap(plans[k], s, B, list.value, next);
      forall m | 0 <= m < k ensures PlanInMap(plans[m], s, B, next) {
        PlanStaysInMap(plans[m], s, B, c, next);
      }
      c := next;
    }
  }

  lemma NothingMapped(plans: seq<Plan>, s: Segment, B: nat)
    requires SegmentOk(s, B) && PlansOk(plans)
    ensures MapJustified(plans, 0, s, B, map[])
  {
    hide SegmentOk;
  }

  lemma MapStaysJustified(plans: seq<Plan>, n: nat, s: Segment, B: nat, c: Candidates, list: Report, next: Candidates)
    requires SegmentOk(s, B) && PlansOk(plans) && n < |plans| && MapJustified(plans, n, s, B, c) && JustifiedBy(plans[n], s, B, list)
    requires forall d :: MapWhole(next, d) ==> MapWhole(c, d) || WholeListed(list, d)
    requires forall d, b: nat :: MapBlock(next, d, b) ==> MapBlock(c, d, b) || BlockListed(list, d, b)
    requires MapFilled(c) && AllFilled(list) ==> MapFilled(next)
    ensures MapJustified(plans, n + 1, s, B, next)
  {
    hide SegmentOk, WholeFor, Meant, MapWhole, MapBlock, WholeListed, BlockListed, MapFilled, AllFilled, DocumentsAscend;
  }

  /** The map's entries say what the map says. */
  lemma EntriesJustified(plans: seq<Plan>, s: Segment, B: nat, c: Candidates, list: Report)
    requires SegmentOk(s, B) && PlansOk(plans) && MapJustified(plans, |plans|, s, B, c) && DocumentsAscend(list)
    requires forall k :: 0 <= k < |list| ==> list[k].0 in c && list[k].1 == c[list[k].0]
    ensures Justified(plans, s, B, list)
  {
    hide SegmentOk, WholeFor, Meant, AnyContains, Filled;
    forall d | WholeListed(list, d) ensures MapWhole(c, d) {
    }
    forall d, b: nat | BlockListed(list, d, b) ensures MapBlock(c, d, b) {
    }
  }

  lemma OnePlanJustified(plans: seq<Plan>, s: Segment, B: nat, list: Report)
    requires SegmentOk(s, B) && PlansOk(plans) && |plans| == 1 && JustifiedBy(plans[0], s, B, list)
    ensures Justified(plans, s, B, list)
  {
    hide SegmentOk, WholeFor, Meant, AllFilled, DocumentsAscend, WholeListed, BlockListed;
  }

  lemma NoCandidates()
    ensures CandidatesOk(map[])
  {
  }

  /**
   The candidate search over one segment.  It fails exactly on an empty plan list or a zero span,
   and otherwise every plan's chosen blocks are reported.
   */
  method FindCandidates(plans: seq<Plan>, s: Segment, B: nat) returns (r: Result<Report>)
    requires SegmentOk(s, B) && StoreOk(s.dict)
    ensures r.Ok? <==> plans != [] && forall k :: 0 <= k < |plans| ==> ExtentOk(plans[k].extent)
    ensures r.Ok? ==> forall k :: 0 <= k < |plans| ==> PlanCovered(plans[k], s, B, r.value)
    ensures r.Ok? ==> Justified(plans, s, B, r.value)
  {
    hide Justified, JustifiedBy, MapJustified, DocumentsAscend;
    hide SegmentOk, StoreOk, PlanCovered, PlanInMap, ReportOk, CandidatesOk, DocumentsBelow;
    if plans == [] {
      return Err;
    }
    for k := 0 to |plans|
      invariant forall m :: 0 <= m < k ==> ExtentOk(plans[m].extent)
    {
      if plans[k].extent.Bytes? && plans[k].extent.span == 0 {
        assert !ExtentOk(plans[k].extent);
        return Err;
      }
    }
    if |plans| == 1 {
      r := SelectOnePlan(plans[0], s, B);
      OnePlanJustified(plans, s, B, r.value);
      return;
    }
    var c := VisitPlans(plans, s, B);
    var list := MapEntries(c, |s.docs|);
    forall k | 0 <= k < |plans| ensures PlanCovered(plans[k], s, B, list) {
      MapReported(plans[k], s, B, c, list);
    }
    EntriesJustified(plans, s, B, c, list);
    return Ok(list);
  }

  /** Pruning dropped no gram of the plan. */
  ghost predicate KeepsAll(plan: Plan, s: Segment) {
    NothingDropped(plan.query, s.dict.idSpace, Trigram, s.dict.lookup)
  }

  /** With every gram kept, a block in the meaning of the resolved query is in the exact meaning of the query. */
  lemma MeaningIsExact(plan: Plan, s: Segment, B: nat, x: nat)
    requires SegmentOk(s, B) && ExtentOk(plan.extent) && KeepsAll(plan, s)
    requires x < s.dict.idSpace && InMeaning(plan, s, B, x)
    ensures InExact(plan.query, s.dict, SegmentExpand(s, B, plan.extent), x)
  {
    assert DictionaryOk(s.dict);
    assert ExpandsAround(SegmentExpand(s, B, plan.extent)) by { SegmentExpandsAround(s, B, plan.extent); }
    hide SegmentOk, DictionaryOk, Resolve, InResolved, InExact, NothingDropped, SegmentExpand, ExpandsAround;
    ResolveExact(plan.query, s.dict, Trigram, SegmentExpand(s, B, plan.extent), x);
  }

  lemma SegmentExpandsAround(s: Segment, B: nat, extent: Extent)
    requires SegmentOk(s, B) && ExtentOk(extent)
    ensures ExpandsAround(SegmentExpand(s, B, extent))
  {
    hide DictionaryOk, BlockPostingsComplete, Describes, ExpandBlock;
    forall y: nat ensures Within(SegmentExpand(s, B, extent).value(y), y) {
      if y < BlockBase(s.docs, B, |s.docs|) {
        ExpansionInDocument(y, s.bases, s.docs, extent, B);
      }
    }
  }

  /** Some block of the document is in the exact meaning of the plan. */
  ghost predicate HasChosen(plan: Plan, s: Segment, B: nat, d: nat)
    requires SegmentOk(s, B) && ExtentOk(plan.extent)
  {
    exists b: nat :: ChosenBlock(plan, s, B, d, b)
  }

  lemma MeantIsChosen(plan: Plan, s: Segment, B: nat, d: nat, b: nat)
    requires SegmentOk(s, B) && ExtentOk(plan.extent) && KeepsAll(plan, s) && Meant(plan, s, B, d, b)
    ensures ChosenBlock(plan, s, B, d, b)
  {
    SegmentBases(s, B);
    IdSpaceIsLastBase(s, B);
    BasesAscend(s.docs, B, d + 1, |s.docs|);
    assert s.bases[d + 1] <= s.dict.idSpace;
    hide SegmentOk, InMeaning, InExact, KeepsAll, SegmentExpand;
    MeaningIsExact(plan, s, B, s.bases[d] + b);
  }

  ghost predicate SomeChosen(plans: seq<Plan>, s: Segment, B: nat, d: nat)
    requires SegmentOk(s, B) && PlansOk(plans)
  {
    exists k :: 0 <= k < |plans| && HasChosen(plans[k], s, B, d)
  }

  /**
   The other side of the search: with every gram kept and no plan that rules nothing out, each reported
   document has a block in the exact meaning of some plan, and each block of a reported range is in one.
   */
  lemma ReportedIsExact(plans: seq<Plan>, s: Segment, B: nat, list: Report)
    requires SegmentOk(s, B) && PlansOk(plans) && Justified(plans, s, B, list)
    requires forall k :: 0 <= k < |plans| ==> KeepsAll(plans[k], s) && !Everything(plans[k], s, B)
    ensures forall i :: 0 <= i < |list| ==> SomeChosen(plans, s, B, list[i].0)
    ensures forall d, b: nat :: BlockListed(list, d, b) ==> exists k :: 0 <= k < |plans| && ChosenBlock(plans[k], s, B, d, b)
  {
    hide SegmentOk, Everything, Meant, ChosenBlock, KeepsAll, AnyContains, DocumentsAscend;
    forall d, b: nat | BlockListed(list, d, b) ensures exists k :: 0 <= k < |plans| && ChosenBlock(plans[k], s, B, d, b) {
      var k :| 0 <= k < |plans| && Meant(plans[k], s, B, d, b);
      MeantIsChosen(plans[k], s, B, d, b);
    }
    forall i | 0 <= i < |list| ensures SomeChosen(plans, s, B, list[i].0) {
      var d := list[i].0;
      if list[i].1.None? {
        assert WholeListed(list, d);
        var k :| 0 <= k < |plans| && WholeFor(plans[k], s, B, d);
        var b: nat :| Meant(plans[k], s, B, d, b);
        MeantIsChosen(plans[k], s, B, d, b);
        assert HasChosen(plans[k], s, B, d);
      } else {
        var b: nat :| AnyContains(list[i].1.value, b);
        assert BlockListed(list, d, b);
        var k :| 0 <= k < |plans| && ChosenBlock(plans[k], s, B, d, b);
        assert HasChosen(plans[k], s, B, d);
      }
    }
  }

  lemma BlockOfPosition(i: nat, j: nat, B: nat, b: nat) returns (x: nat)
    requires B >= 1 && i < j && BlockAt(i, B) <= b <= BlockAt(j - 1, B)
    ensures i <= x < j && BlockAt(x, B) == b
  {
    hide BlockAt;
    BlockBounds(i, B);
    BlockBounds(j - 1, B);
    if b == BlockAt(i, B) {
      x := i;
    } else {
      x := b * B;
      MulMonotone(BlockAt(i, B) + 1, b, B);
      MulMonotone(b, BlockAt(j - 1, B), B);
      assert (BlockAt(i, B) + 1) * B == BlockAt(i, B) * B + B;
      BlockIs(x, B, b);
    }
  }

  /**
   No match is lost: for every regex, every document and every match that fits the plan's extent,
   the blocks from the match's first byte to its last lie in one reported range whose extent is at
   least as broad, or the document is reported whole.
   */
  lemma MatchReported(h: Hir, p: Planner, look: LookAt, plan: Plan, s: Segment, B: nat, list: Report,
                      doc: nat, i: nat, j: nat)
    requires SegmentOk(s, B) && ExtentOk(plan.extent) && PlanCovered(plan, s, B, list)
    requires p.strategy == Trigram && ExtractorSound(p.extract, look) && plan.query == HirQuery(h, p)
    requires doc < |s.contents| && i < j <= |s.contents[doc]|
    requires Matches(h, look, s.contents[doc], i, j) && Fits(plan.extent, s.contents[doc], i, j)
    ensures Reports(list, doc, BlockAt(i, B), BlockAt(j - 1, B) + 1, plan.extent)
  {
    hide *;
    SegmentBases(s, B);
    var lo, hi := BlockAt(i, B), BlockAt(j - 1, B) + 1;
    DivMonotone(i, j - 1, B);
    forall b | lo <= b < hi ensures ChosenBlock(plan, s, B, doc, b) {
      var x := BlockOfPosition(i, j, B, b);
      MatchBlockInDocument(s, B, doc, x);
      TouchedBlocksSelected(h, p, look, s, B, doc, plan.extent, i, j, x);
      IsChosenBlock(plan, s, B, doc, b);
    }
    AreChosen(plan, s, B, doc, lo, hi, list);
  }

  lemma IsChosenBlock(plan: Plan, s: Segment, B: nat, doc: nat, b: nat)
    requires SegmentOk(s, B) && ExtentOk(plan.extent) && doc < |s.docs| && doc + 1 < |s.bases|
    requires s.bases[doc] + b < s.bases[doc + 1]
    requires InExact(plan.query, s.dict, SegmentExpand(s, B, plan.extent), s.bases[doc] + b)
    ensures ChosenBlock(plan, s, B, doc, b)
  {
    hide SegmentOk, InExact, SegmentExpand;
  }

  lemma AreChosen(plan: Plan, s: Segment, B: nat, doc: nat, lo: nat, hi: nat, list: Report)
    requires SegmentOk(s, B) && ExtentOk(plan.extent) && PlanCovered(plan, s, B, list)
    requires doc < |s.docs| && lo < hi && forall b :: lo <= b < hi ==> ChosenBlock(plan, s, B, doc, b)
    ensures Reports(list, doc, lo, hi, plan.extent)
  {
    hide SegmentOk, ChosenBlock, Reports;
    assert Chosen(plan, s, B, doc, lo, hi);
  }

  lemma MatchBlockInDocument(s: Segment, B: nat, doc: nat, x: nat)
    requires SegmentOk(s, B) && doc < |s.contents| && x < |s.contents[doc]|
    ensures s.bases[doc] + BlockAt(x, B) < s.bases[doc + 1]
  {
    BlockOfByte(|s.contents[doc]|, B, x);
    assert Describes(s.docs[doc], s.contents[doc]);
  }

  /** A regex that matches nothing at all at some place asks for every block: all of the document is reported. */
  lemma EmptyMatchReported(h: Hir, p: Planner, look: LookAt, plan: Plan, s: Segment, B: nat, list: Report,
                           doc: nat, i: nat, lo: nat, hi: nat)
    requires SegmentOk(s, B) && ExtentOk(plan.extent) && PlanCovered(plan, s, B, list)
    requires p.strategy == Trigram && ExtractorSound(p.extract, look) && plan.query == HirQuery(h, p)
    requires doc < |s.contents| && i <= |s.contents[doc]| && Matches(h, look, s.contents[doc], i, i)
    requires doc + 1 < |s.bases| && lo < hi && s.bases[doc] + hi <= s.bases[doc + 1]
    ensures Reports(list, doc, lo, hi, plan.extent)
  {
    hide *;
    SegmentBases(s, B);
    forall b | lo <= b < hi ensures ChosenBlock(plan, s, B, doc, b) {
      PlanSound(h, p, look, s.contents[doc], i, i);
      NoGramsInNothing(s.contents[doc], i, p);
      HoldsPutsInExact(HirQuery(h, p), GramSet(s.contents[doc][i..i], p), s.dict, SegmentExpand(s, B, plan.extent),
                       s.bases[doc] + b);
      IsChosenBlock(plan, s, B, doc, b);
    }
    AreChosen(plan, s, B, doc, lo, hi, list);
  }

  lemma NoGramsInNothing(t: seq<Byte>, i: nat, p: Planner)
    requires p.strategy == Trigram && i <= |t|
    ensures forall g :: g !in GramSet(t[i..i], p)
  {
  }

  // ---------------------------------------------------------------------------------------------
  // The sparse strategy: posting lists name documents and nothing is expanded

  /** `id..=id`. */
  const SELF: Expand := Some((id: nat) => (id, id))

  /** Every indexed gram of every document is in the dictionary, document ids are positions. */
  ghost predicate SparseSegmentOk(contents: seq<seq<Byte>>, w: PairWeight, d: Dictionary) {
    && DictionaryOk(d) && StoreOk(d) && d.idSpace == |contents|
    && forall k: nat, g :: k < |contents| && GramOf(contents[k], Sparse, w, g) ==> k in d.postings(g)
  }

  lemma SparseMatchChosen(h: Hir, p: Planner, look: LookAt, contents: seq<seq<Byte>>, d: Dictionary, doc: nat, i: nat, j: nat)
    requires SparseSegmentOk(contents, p.w, d) && p.strategy == Sparse && ExtractorSound(p.extract, look)
    requires doc < |contents| && i <= j <= |contents[doc]| && Matches(h, look, contents[doc], i, j)
    ensures InExact(HirQuery(h, p), d, SELF, doc)
  {
    hide Matches, ExtractorSound, HirQuery, DictionaryOk, StoreOk, QueryPlan.Holds, InExact, GramOf;
    PlanSoundForText(h, p, look, contents[doc], i, j);
    var grams := GramSet(contents[doc], p);
    forall g | g in grams ensures HasExpansion(d.postings(g), SELF, doc) {
      var k :| 0 <= k < |d.postings(g)| && d.postings(g)[k] == doc;
      assert InExpansion(SELF, d.postings(g)[k], doc);
    }
    HoldsPutsInExact(HirQuery(h, p), grams, d, SELF, doc);
  }

  lemma SparseSelection(query: Query, d: Dictionary, n: nat, blocks: Blocks)
    requires DictionaryOk(d) && StoreOk(d) && d.idSpace == n
    requires forall o :: o in blocks ==> blocks[o] == d.store(o)
    requires var r := Resolve(query, n, Sparse, d.lookup); r.Ok? ==> BlocksNeeded(r.value).Keys <= blocks.Keys
    ensures var r := Resolve(query, n, Sparse, d.lookup);
            && r.Ok? && Evaluate(r.value, blocks, SELF).Ok?
            && var sel := Evaluate(r.value, blocks, SELF).value;
            sel.Ids? ==>
              && StrictlySorted(IdLess, sel.ids) && IdsBelow(sel.ids, n)
              && forall x :: InExact(query, d, SELF, x) ==> x in sel.ids
    ensures var r := Resolve(query, n, Sparse, d.lookup).value;
            forall x :: Evaluate(r, blocks, SELF).value.SelAll? || x in Evaluate(r, blocks, SELF).value.ids ==> InResolved(r, d, SELF, x)
  {
    assert BlocksOk(blocks, d) && BlocksBelow(blocks, n) && ExpandsBelow(SELF, n);
    hide DictionaryOk, Resolve, Evaluate, InExact, InResolved, BlocksNeeded, BlocksOk, BlocksBelow, ExpandsBelow, StoreOk, NothingDropped;
    SelectionSound(query, d, Sparse, blocks, SELF);
    EvaluateMeans(Resolve(query, n, Sparse, d.lookup).value, blocks, d, SELF);
    ResolveDocsBelow(query, n, Sparse, d.lookup);
    EvaluateBelow(Resolve(query, n, Sparse, d.lookup).value, blocks, SELF, n);
  }

  ghost predicate ReportsWhole(list: Report, doc: nat) {
    exists k :: 0 <= k < |list| && list[k] == (doc, None)
  }

  /**
   One plan over a sparse segment: every document in the plan's meaning is reported whole, in order, and
   none that is not in the meaning of the resolved query.
   */
  method SelectSparsePlan(plan: Plan, contents: seq<seq<Byte>>, w: PairWeight, d: Dictionary) returns (r: Result<Report>)
    requires SparseSegmentOk(contents, w, d)
    ensures r.Ok? && ReportOk(r.value) && DocumentsAscend(r.value)
    ensures var resolved := Resolve(plan.query, |contents|, Sparse, d.lookup);
            resolved.Ok? && forall k :: 0 <= k < |r.value| ==> r.value[k].1.None? && InResolved(resolved.value, d, SELF, r.value[k].0)
    ensures forall doc: nat :: doc < |contents| && InExact(plan.query, d, SELF, doc) ==> ReportsWhole(r.value, doc)
  {
    hide InExact, InResolved, Resolve, Evaluate, DictionaryOk, StoreOk, SparseSegmentOk, DocumentsAscend, BlocksNeeded, GramOf, StrictlySorted;
    var n := |contents|;
    assert DictionaryOk(d) && StoreOk(d) && d.idSpace == n by { SparseFacts(contents, w, d); }
    var resolved := Resolve(plan.query, n, Sparse, d.lookup);
    if resolved.Err? {
      SparseSelection(plan.query, d, n, map[]);
      return Err;
    }
    var needed := CollectBlocks(resolved.value, map[]);
    var blocks := FetchBlocks(needed, d);
    SparseSelection(plan.query, d, n, blocks);
    var sel := Evaluate(resolved.value, blocks, SELF);
    r := CandidateDocuments(sel.value, plan.extent, Sparse, n, None, [], 1);
    if sel.value.Ids? {
      IdsAreWhole(sel.value.ids, n);
    } else {
      AllAreWhole(n);
    }
  }

  lemma SparseFacts(contents: seq<seq<Byte>>, w: PairWeight, d: Dictionary)
    requires SparseSegmentOk(contents, w, d)
    ensures DictionaryOk(d) && StoreOk(d) && d.idSpace == |contents|
  {
    hide DictionaryOk, StoreOk;
  }

  lemma IdsAreWhole(ids: seq<nat>, n: nat)
    requires IdsBelow(ids, n)
    ensures forall k :: 0 <= k < |ids| ==> ids[k] < n
    ensures forall doc :: doc in ids ==> ReportsWhole(AsWhole(ids), doc)
  {
    forall doc | doc in ids ensures ReportsWhole(AsWhole(ids), doc) {
      var k :| 0 <= k < |ids| && ids[k] == doc;
      assert AsWhole(ids)[k] == (doc, None);
    }
    forall k | 0 <= k < |ids| ensures ids[k] < n {
      assert ids[k] in ids;
    }
  }

  lemma AllAreWhole(n: nat)
    ensures forall doc: nat :: doc < n ==> ReportsWhole(WholeDocuments(n), doc)
  {
    forall doc: nat | doc < n ensures ReportsWhole(WholeDocuments(n), doc) {
      assert WholeDocuments(n)[doc] == (doc, None);
    }
  }
}
