/** From a regex to the gram constraints every match meets (crates/query/src/lib.rs). */
module QueryPlan {
  import opened Wrappers
  import opened Hirs
  import opened Grams
  import opened TextGrams
  import opened Slices

  datatype Query = All | And(subs: seq<Query>) | Or(subs: seq<Query>) | Gram(gram: Gram)

  datatype Side = Prefix | Suffix

  /**
   `regex_syntax`'s literal extractor: a finite list of literals one of which every match starts
   (ends) with, or `None` when it cannot give one.
   */
  type Extractor = (Hir, Side) -> Option<seq<seq<Byte>>>

  datatype Planner = Planner(extract: Extractor, strategy: Strategy, w: PairWeight)

  function GramQueries(grams: seq<Gram>): seq<Query> {
    if grams == [] then [] else [Gram(grams[0])] + GramQueries(grams[1..])
  }

  function LitQuery(lit: seq<Byte>, p: Planner): Query {
    var grams := QueryGrams(lit, p.strategy, p.w);
    if grams == [] then All else And(GramQueries(grams))
  }

  function LitQueries(literals: seq<seq<Byte>>, p: Planner): (r: seq<Query>)
    ensures |r| == |literals| && forall k :: 0 <= k < |r| ==> r[k] == LitQuery(literals[k], p)
  {
    if literals == [] then [] else [LitQuery(literals[0], p)] + LitQueries(literals[1..], p)
  }

  function SideQuery(literals: Option<seq<seq<Byte>>>, p: Planner): Option<Query> {
    if literals.None? || literals.value == [] then None
    else
      var branches := LitQueries(literals.value, p);
      if All in branches then None else Some(Or(branches))
  }

  function OptionalPart(q: Option<Query>): seq<Query> {
    if q.None? then [] else [q.value]
  }

  /** What a node adds beyond its own prefix and suffix literals. */
  function NodeParts(h: Hir, p: Planner): seq<Query>
    decreases h, 0
  {
    match h
    case Concat(subs) => HirQueries(subs, p)
    case Alternation(subs) =>
      var branches := HirQueries(subs, p);
      if All in branches then [] else [Or(branches)]
    case Capture(sub) => [HirQuery(sub, p)]
    case Repetition(min, _, sub) => if min >= 1 then [HirQuery(sub, p)] else []
    case _ => []
  }

  /** Everything a node constrains, before duplicates and `All` are dropped. */
  function Parts(h: Hir, p: Planner): seq<Query>
    decreases h, 1
  {
    OptionalPart(SideQuery(p.extract(h, Prefix), p)) + OptionalPart(SideQuery(p.extract(h, Suffix), p)) +
    NodeParts(h, p)
  }

  /** First occurrences of the constraints other than `All`. */
  function Unique(parts: seq<Query>): (r: seq<Query>)
    ensures forall q :: q in r <==> q in parts && q != All
  {
    if parts == [] then []
    else
      var front, last := Unique(parts[..|parts| - 1]), parts[|parts| - 1];
      assert parts == parts[..|parts| - 1] + [last];
      if last != All && last !in front then front + [last] else front
  }

  function Assemble(parts: seq<Query>): Query {
    var unique := Unique(parts);
    if |unique| == 0 then All else if |unique| == 1 then unique[0] else And(unique)
  }

  function HirQuery(h: Hir, p: Planner): Query
    decreases h, 2
  {
    Assemble(Parts(h, p))
  }

  function HirQueries(hs: seq<Hir>, p: Planner): (r: seq<Query>)
    ensures |r| == |hs|
    decreases hs, 0
  {
    if hs == [] then [] else [HirQuery(hs[0], p)] + HirQueries(hs[1..], p)
  }

  // ---------------------------------------------------------------------------------------------
  // The program's form: vectors filled in loops

  method AssembleParts(parts: seq<Query>) returns (q: Query)
    ensures q == Assemble(parts)
  {
    var unique: seq<Query> := [];
    for k := 0 to |parts|
      invariant unique == Unique(parts[..k])
    {
      assert parts[..k + 1][..k] == parts[..k];
      if parts[k] != All && parts[k] !in unique {
        unique := unique + [parts[k]];
      }
    }
    assert parts[..|parts|] == parts;
    if |unique| == 0 {
      q := All;
    } else if |unique| == 1 {
      q := unique[0];
    } else {
      q := And(unique);
    }
  }

  method PlanHir(h: Hir, p: Planner) returns (q: Query)
    ensures q == HirQuery(h, p)
    decreases h, 2
  {
    var parts := OptionalPart(SideQuery(p.extract(h, Prefix), p)) + OptionalPart(SideQuery(p.extract(h, Suffix), p));
    match h {
      case Concat(subs) =>
        var children := PlanChildren(subs, p);
        parts := parts + children;
      case Alternation(subs) =>
        var branches := PlanChildren(subs, p);
        if All !in branches {
          parts := parts + [Or(branches)];
        }
      case Capture(sub) =>
        var inner := PlanHir(sub, p);
        parts := parts + [inner];
      case Repetition(min, _, sub) =>
        if min >= 1 {
          var inner := PlanHir(sub, p);
          parts := parts + [inner];
        }
      case _ =>
    }
    assert parts == Parts(h, p);
    q := AssembleParts(parts);
  }

  method PlanChildren(hs: seq<Hir>, p: Planner) returns (qs: seq<Query>)
    ensures qs == HirQueries(hs, p)
    decreases hs, 0
  {
    hide HirQuery;
    qs := [];
    for k := 0 to |hs|
      invariant qs + HirQueries(hs[k..], p) == HirQueries(hs, p)
    {
      var q := PlanHir(hs[k], p);
      assert hs[k..][1..] == hs[k + 1..];
      qs := qs + [q];
    }
  }

  // ---------------------------------------------------------------------------------------------
  // Meaning of a query over the grams of a text

  ghost predicate Holds(q: Query, grams: iset<Gram>)
    decreases q
  {
    match q
    case All => true
    case Gram(g) => g in grams
    case And(subs) => forall k :: 0 <= k < |subs| ==> Holds(subs[k], grams)
    case Or(subs) => exists k :: 0 <= k < |subs| && Holds(subs[k], grams)
  }

  ghost function GramSet(text: seq<Byte>, p: Planner): iset<Gram> {
    iset g: Gram | GramOf(text, p.strategy, p.w, g)
  }

  lemma {:induction false} HoldsMonotone(q: Query, small: iset<Gram>, large: iset<Gram>)
    requires small <= large && Holds(q, small)
    ensures Holds(q, large)
    decreases q
  {
    match q
    case And(subs) =>
      forall k | 0 <= k < |subs| ensures Holds(subs[k], large) {
        HoldsMonotone(subs[k], small, large);
      }
    case Or(subs) =>
      var k :| 0 <= k < |subs| && Holds(subs[k], small);
      HoldsMonotone(subs[k], small, large);
    case _ =>
  }

  lemma GramSetOfPart(part: seq<Byte>, whole: seq<Byte>, off: nat, p: Planner)
    requires PartAt(part, whole, off)
    ensures GramSet(part, p) <= GramSet(whole, p)
  {
    forall g | g in GramSet(part, p) ensures g in GramSet(whole, p) {
      GramOfPart(part, whole, off, p.strategy, p.w, g);
    }
  }

  /** What holds of a stretch of the text holds of every longer stretch. */
  lemma HoldsOnWiderStretch(q: Query, p: Planner, t: seq<Byte>, i: nat, a: nat, b: nat, j: nat)
    requires i <= a <= b <= j <= |t| && Holds(q, GramSet(t[a..b], p))
    ensures Holds(q, GramSet(t[i..j], p))
  {
    SliceOfSlice(t, i, j, a - i, b - i);
    GramSetOfPart(t[a..b], t[i..j], a - i, p);
    HoldsMonotone(q, GramSet(t[a..b], p), GramSet(t[i..j], p));
  }

  // ---------------------------------------------------------------------------------------------
  // Soundness

  /** The literal sits at the start (end) of the stretch. */
  ghost predicate AtSide(lit: seq<Byte>, side: Side, t: seq<Byte>, i: nat, j: nat)
    requires i <= j <= |t|
  {
    && |lit| <= j - i
    && (side == Prefix ==> t[i..i + |lit|] == lit)
    && (side == Suffix ==> t[j - |lit|..j] == lit)
  }

  /** The contract of the literal extractor. */
  ghost predicate ExtractorSound(extract: Extractor, look: LookAt) {
    forall h, side, t, i: nat, j: nat ::
      i <= j <= |t| && Matches(h, look, t, i, j) && extract(h, side).Some? ==>
        exists k :: 0 <= k < |extract(h, side).value| && AtSide(extract(h, side).value[k], side, t, i, j)
  }

  lemma {:induction false} GramQueriesHold(grams: seq<Gram>, set': iset<Gram>)
    requires forall g :: g in grams ==> g in set'
    ensures forall k :: 0 <= k < |GramQueries(grams)| ==> Holds(GramQueries(grams)[k], set')
  {
    if grams != [] {
      GramQueriesHold(grams[1..], set');
    }
  }

  lemma LitQueryHolds(lit: seq<Byte>, p: Planner, text: seq<Byte>, off: nat)
    requires PartAt(lit, text, off)
    ensures Holds(LitQuery(lit, p), GramSet(text, p))
  {
    QueryGramsIndexed(lit, text, off, p.strategy, p.w);
    GramQueriesHold(QueryGrams(lit, p.strategy, p.w), GramSet(text, p));
  }

  lemma SideIsPart(lit: seq<Byte>, side: Side, t: seq<Byte>, i: nat, j: nat) returns (off: nat)
    requires i <= j <= |t| && AtSide(lit, side, t, i, j)
    ensures PartAt(lit, t[i..j], off)
  {
    off := if side == Prefix then 0 else j - i - |lit|;
    SliceOfSlice(t, i, j, off, off + |lit|);
  }

  lemma SideQueryHolds(h: Hir, side: Side, p: Planner, look: LookAt, t: seq<Byte>, i: nat, j: nat)
    requires ExtractorSound(p.extract, look)
    requires i <= j <= |t| && Matches(h, look, t, i, j)
    ensures var q := SideQuery(p.extract(h, side), p); q.Some? ==> Holds(q.value, GramSet(t[i..j], p))
  {
    hide ExtractorSound, Matches, GramSet, LitQuery, Holds, AtSide, PartAt;
    var literals := p.extract(h, side);
    if SideQuery(literals, p).Some? {
      ExtractedLiteral(h, side, p.extract, look, t, i, j);
      var k :| 0 <= k < |literals.value| && AtSide(literals.value[k], side, t, i, j);
      var lit := literals.value[k];
      var off := SideIsPart(lit, side, t, i, j);
      LitQueryHolds(lit, p, t[i..j], off);
      OrHolds(LitQueries(literals.value, p), k, GramSet(t[i..j], p));
    }
  }

  lemma ExtractedLiteral(h: Hir, side: Side, extract: Extractor, look: LookAt, t: seq<Byte>, i: nat, j: nat)
    requires ExtractorSound(extract, look) && extract(h, side).Some?
    requires i <= j <= |t| && Matches(h, look, t, i, j)
    ensures exists k :: 0 <= k < |extract(h, side).value| && AtSide(extract(h, side).value[k], side, t, i, j)
  {
  }

  lemma OrHolds(subs: seq<Query>, k: nat, grams: iset<Gram>)
    requires k < |subs| && Holds(subs[k], grams)
    ensures Holds(Or(subs), grams)
  {
  }

  lemma AssembleHolds(parts: seq<Query>, grams: iset<Gram>)
    requires forall q :: q in parts ==> Holds(q, grams)
    ensures Holds(Assemble(parts), grams)
  {
  }

  /**
   Every constraint the planner derives from a regex holds of the grams of every stretch it
   matches - not only of the text around it.
   */
  lemma {:induction false} PlanSound(h: Hir, p: Planner, look: LookAt, t: seq<Byte>, i: nat, j: nat)
    requires ExtractorSound(p.extract, look)
    requires i <= j <= |t| && Matches(h, look, t, i, j)
    ensures Holds(HirQuery(h, p), GramSet(t[i..j], p))
    decreases h, 1
  {
    hide SideQuery, GramSet, Assemble, ExtractorSound, Matches, NodeParts, Holds;
    SideQueryHolds(h, Prefix, p, look, t, i, j);
    SideQueryHolds(h, Suffix, p, look, t, i, j);
    NodeSound(h, p, look, t, i, j);
    AssembleHolds(Parts(h, p), GramSet(t[i..j], p));
  }

  lemma {:induction false} NodeSound(h: Hir, p: Planner, look: LookAt, t: seq<Byte>, i: nat, j: nat)
    requires ExtractorSound(p.extract, look)
    requires i <= j <= |t| && Matches(h, look, t, i, j)
    ensures forall q :: q in NodeParts(h, p) ==> Holds(q, GramSet(t[i..j], p))
    decreases h, 0
  {
    hide GramSet, Assemble, ExtractorSound, HirQuery;
    match h
    case Concat(subs) =>
      ChildrenSound(subs, p, look, t, i, i, j, j);
    case Alternation(subs) =>
      var k :| 0 <= k < |subs| && Matches(subs[k], look, t, i, j);
      PlanSound(subs[k], p, look, t, i, j);
      HirQueriesAt(subs, p, k);
    case Capture(sub) =>
      PlanSound(sub, p, look, t, i, j);
    case Repetition(min, max, sub) =>
      if min >= 1 {
        var n: nat :| min <= n && MatchesTimes(sub, n, look, t, i, j);
        FirstOfTimes(sub, n, look, t, i, j);
        var k :| i <= k <= j && Matches(sub, look, t, i, k);
        PlanSound(sub, p, look, t, i, k);
        HoldsOnWiderStretch(HirQuery(sub, p), p, t, i, i, k, j);
      }
    case _ =>
  }

  lemma FirstOfTimes(h: Hir, n: nat, look: LookAt, t: seq<Byte>, i: nat, j: nat)
    requires i <= j <= |t| && n >= 1 && MatchesTimes(h, n, look, t, i, j)
    ensures exists k :: i <= k <= j && Matches(h, look, t, i, k)
  {
  }

  /** Each child of a concatenation matches a stretch inside `[lo, hi)`. */
  lemma {:induction false} ChildrenSound(hs: seq<Hir>, p: Planner, look: LookAt, t: seq<Byte>,
                                         lo: nat, i: nat, j: nat, hi: nat)
    requires ExtractorSound(p.extract, look)
    requires lo <= i <= j <= hi <= |t| && MatchesAll(hs, look, t, i, j)
    ensures forall q :: q in HirQueries(hs, p) ==> Holds(q, GramSet(t[lo..hi], p))
    decreases hs, 0
  {
    hide GramSet, ExtractorSound, HirQuery, Matches, Holds;
    if hs != [] {
      var k :| i <= k <= j && Matches(hs[0], look, t, i, k) && MatchesAll(hs[1..], look, t, k, j);
      PlanSound(hs[0], p, look, t, i, k);
      HoldsOnWiderStretch(HirQuery(hs[0], p), p, t, lo, i, k, hi);
      ChildrenSound(hs[1..], p, look, t, lo, k, j, hi);
    }
  }

  lemma {:induction false} HirQueriesAt(hs: seq<Hir>, p: Planner, k: nat)
    requires k < |hs|
    ensures HirQueries(hs, p)[k] == HirQuery(hs[k], p)
  {
    hide HirQuery;
    if k > 0 {
      HirQueriesAt(hs[1..], p, k - 1);
    }
  }

  /** The planned query is true of the grams of any text that contains a match. */
  lemma PlanSoundForText(h: Hir, p: Planner, look: LookAt, t: seq<Byte>, i: nat, j: nat)
    requires ExtractorSound(p.extract, look)
    requires i <= j <= |t| && Matches(h, look, t, i, j)
    ensures Holds(HirQuery(h, p), GramSet(t, p))
  {
    PlanSound(h, p, look, t, i, j);
    HoldsOnWiderStretch(HirQuery(h, p), p, t, 0, i, j, |t|);
    assert t[0..|t|] == t;
  }

  // ---------------------------------------------------------------------------------------------
  // Exactly what a plan demands

  /** All grams the literal is looked up by are present. */
  ghost predicate HasGrams(lit: seq<Byte>, p: Planner, grams: iset<Gram>) {
    forall g :: g in QueryGrams(lit, p.strategy, p.w) ==> g in grams
  }

  /** One of the side's literals is present, if the side has a finite list of them. */
  ghost predicate SideDemand(literals: Option<seq<seq<Byte>>>, p: Planner, grams: iset<Gram>) {
    literals.Some? && literals.value != [] ==> exists k :: 0 <= k < |literals.value| && HasGrams(literals.value[k], p, grams)
  }

  /**
   What a regex demands of a gram set: a literal of either side, every part of a concatenation, some
   branch of an alternation, and whatever must occur at least once.
   */
  ghost predicate Demands(h: Hir, p: Planner, grams: iset<Gram>)
    decreases h, 0
  {
    && SideDemand(p.extract(h, Prefix), p, grams) && SideDemand(p.extract(h, Suffix), p, grams)
    && match h
       case Concat(subs) => forall k :: 0 <= k < |subs| ==> Demands(subs[k], p, grams)
       case Alternation(subs) => exists k :: 0 <= k < |subs| && Demands(subs[k], p, grams)
       case Capture(sub) => Demands(sub, p, grams)
       case Repetition(min, _, sub) => min >= 1 ==> Demands(sub, p, grams)
       case _ => true
  }

  /** A conjunction holds when each of its queries does. */
  lemma AllHold(subs: seq<Query>, grams: iset<Gram>)
    ensures (forall q :: q in subs ==> Holds(q, grams)) <==> forall k :: 0 <= k < |subs| ==> Holds(subs[k], grams)
    ensures Holds(And(subs), grams) <==> forall q :: q in subs ==> Holds(q, grams)
  {
    if forall q :: q in subs ==> Holds(q, grams) {
      forall k | 0 <= k < |subs| ensures Holds(subs[k], grams) {
        assert subs[k] in subs;
      }
    }
  }

  lemma {:induction false} GramQueriesMean(grams: seq<Gram>, set': iset<Gram>)
    ensures (forall q :: q in GramQueries(grams) ==> Holds(q, set')) <==> forall g :: g in grams ==> g in set'
  {
    if grams != [] {
      GramQueriesMean(grams[1..], set');
      assert grams == [grams[0]] + grams[1..];
      assert Gram(grams[0]) in GramQueries(grams);
    }
  }

  lemma LitQueryMeans(lit: seq<Byte>, p: Planner, grams: iset<Gram>)
    ensures Holds(LitQuery(lit, p), grams) <==> HasGrams(lit, p, grams)
  {
    var list := QueryGrams(lit, p.strategy, p.w);
    hide QueryGrams;
    GramQueriesMean(list, grams);
    var queries := GramQueries(list);
    AllHold(queries, grams);
  }

  lemma SideQueryMeans(literals: Option<seq<seq<Byte>>>, p: Planner, grams: iset<Gram>)
    ensures var q := SideQuery(literals, p); (q.Some? ==> Holds(q.value, grams)) <==> SideDemand(literals, p, grams)
  {
    hide LitQuery, HasGrams;
    if literals.Some? && literals.value != [] {
      var branches := LitQueries(literals.value, p);
      forall k | 0 <= k < |branches| ensures Holds(branches[k], grams) <==> HasGrams(literals.value[k], p, grams) {
        LitQueryMeans(literals.value[k], p, grams);
      }
      if All in branches {
        var k :| 0 <= k < |branches| && branches[k] == All;
        assert Holds(branches[k], grams);
      } else {
        assert Holds(Or(branches), grams) <==> exists k :: 0 <= k < |branches| && Holds(branches[k], grams);
      }
    }
  }

  lemma AssembleMeans(parts: seq<Query>, grams: iset<Gram>)
    ensures Holds(Assemble(parts), grams) <==> forall q :: q in parts ==> Holds(q, grams)
  {
    var unique := Unique(parts);
    assert (forall q :: q in parts ==> Holds(q, grams)) <==> forall q :: q in unique ==> Holds(q, grams);
    hide Unique;
    if |unique| > 1 {
      assert Holds(And(unique), grams) <==> forall k :: 0 <= k < |unique| ==> Holds(unique[k], grams);
    }
  }

  /** A plan is true of a gram set exactly when the set meets what the regex demands: no more and no less. */
  lemma {:induction false} PlanMeans(h: Hir, p: Planner, grams: iset<Gram>)
    ensures Holds(HirQuery(h, p), grams) <==> Demands(h, p, grams)
    decreases h, 1
  {
    hide SideQuery, Assemble, NodeParts, Holds, SideDemand;
    AssembleMeans(Parts(h, p), grams);
    SideQueryMeans(p.extract(h, Prefix), p, grams);
    SideQueryMeans(p.extract(h, Suffix), p, grams);
    NodeMeans(h, p, grams);
  }

  ghost predicate NodeDemand(h: Hir, p: Planner, grams: iset<Gram>) {
    match h
    case Concat(subs) => forall k :: 0 <= k < |subs| ==> Demands(subs[k], p, grams)
    case Alternation(subs) => exists k :: 0 <= k < |subs| && Demands(subs[k], p, grams)
    case Capture(sub) => Demands(sub, p, grams)
    case Repetition(min, _, sub) => min >= 1 ==> Demands(sub, p, grams)
    case _ => true
  }

  lemma {:induction false} NodeMeans(h: Hir, p: Planner, grams: iset<Gram>)
    ensures (forall q :: q in NodeParts(h, p) ==> Holds(q, grams)) <==> NodeDemand(h, p, grams)
    decreases h, 0
  {
    hide HirQuery, Demands;
    match h
    case Concat(subs) =>
      forall k | 0 <= k < |subs| ensures Holds(HirQueries(subs, p)[k], grams) <==> Demands(subs[k], p, grams) {
        PlanMeans(subs[k], p, grams);
        HirQueriesAt(subs, p, k);
      }
      AllHold(HirQueries(subs, p), grams);
      assert NodeParts(h, p) == HirQueries(subs, p);
    case Alternation(subs) =>
      var branches := HirQueries(subs, p);
      forall k | 0 <= k < |subs| ensures Holds(branches[k], grams) <==> Demands(subs[k], p, grams) {
        PlanMeans(subs[k], p, grams);
        HirQueriesAt(subs, p, k);
      }
      BranchesMean(branches, grams);
      assert NodeParts(h, p) == if All in branches then [] else [Or(branches)];
    case Capture(sub) =>
      PlanMeans(sub, p, grams);
      assert NodeParts(h, p) == [HirQuery(sub, p)];
    case Repetition(min, _, sub) =>
      PlanMeans(sub, p, grams);
      assert NodeParts(h, p) == if min >= 1 then [HirQuery(sub, p)] else [];
    case _ =>
  }

  /** Dropping an alternation with an unconstrained branch changes nothing. */
  lemma BranchesMean(branches: seq<Query>, grams: iset<Gram>)
    ensures (forall q :: q in (if All in branches then [] else [Or(branches)]) ==> Holds(q, grams)) <==>
              exists k :: 0 <= k < |branches| && Holds(branches[k], grams)
  {
    if All in branches {
      var k :| 0 <= k < |branches| && branches[k] == All;
      assert Holds(branches[k], grams);
    } else {
      var parts := [Or(branches)];
      assert Or(branches) in parts;
      assert Holds(Or(branches), grams) <==> exists k :: 0 <= k < |branches| && Holds(branches[k], grams);
    }
  }
}
