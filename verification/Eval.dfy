/**
 Resolving a gram query against the term dictionary, pruning it, and evaluating it over posting
 lists (crates/index/src/eval.rs).
 */
module Eval {
  import opened Wrappers
  import opened Sorting
  import opened Grams
  import opened QueryPlan
  import Postings

  const SPARSE_MAX_GRAMS_PER_AND := 8
  const BLOCK_MAX_GRAMS_PER_AND := 64

  const OFFSET_SPACE := 0x100_0000_0000
  const COUNT_SPACE := 0x100_0000
  const U32_SPACE := 0x1_0000_0000

  /** Offset in the low 40 bits, id count above them. */
  function PackPosting(offset: nat, count: nat): Result<nat> {
    if offset >= OFFSET_SPACE || count >= COUNT_SPACE then Err
    else Ok(offset + count * OFFSET_SPACE)
  }

  function UnpackPosting(value: nat): (nat, nat) {
    (value % OFFSET_SPACE, value / OFFSET_SPACE % U32_SPACE)
  }

  lemma PackRoundTrip(offset: nat, count: nat)
    ensures PackPosting(offset, count).Ok? <==> offset < OFFSET_SPACE && count < COUNT_SPACE
    ensures PackPosting(offset, count).Ok? ==>
              && UnpackPosting(PackPosting(offset, count).value) == (offset, count)
              && PackPosting(offset, count).value < U32_SPACE * U32_SPACE
  {
  }

  datatype TermValue = TermValue(packed: nat, len: Option<nat>)

  type Lookup = Gram -> Option<TermValue>

  datatype Resolved =
    | RAll
    | RNone
    | RDoc(id: nat)
    | RGram(offset: nat, count: nat, len: nat)
    | RAnd(children: seq<Resolved>)
    | ROr(children: seq<Resolved>)

  datatype Selection = SelAll | Ids(ids: seq<nat>)

  // ---------------------------------------------------------------------------------------------
  // Pruning

  function InsertByCount(g: Resolved, gs: seq<Resolved>): seq<Resolved>
    requires g.RGram? && forall k :: 0 <= k < |gs| ==> gs[k].RGram?
  {
    if gs == [] || g.count <= gs[0].count then [g] + gs else [gs[0]] + InsertByCount(g, gs[1..])
  }

  /** The stable sort by id count that decides which grams survive the cap. */
  function SortByCount(gs: seq<Resolved>): (r: seq<Resolved>)
    requires forall k :: 0 <= k < |gs| ==> gs[k].RGram?
    ensures forall k :: 0 <= k < |r| ==> r[k].RGram?
    ensures forall x :: x in r <==> x in gs
    ensures |r| == |gs|
  {
    if gs == [] then []
    else
      var rest := SortByCount(gs[1..]);
      InsertByCountElements(gs[0], rest);
      assert gs == [gs[0]] + gs[1..];
      InsertByCount(gs[0], rest)
  }

  lemma {:induction false} InsertByCountElements(g: Resolved, gs: seq<Resolved>)
    requires g.RGram? && forall k :: 0 <= k < |gs| ==> gs[k].RGram?
    ensures var r := InsertByCount(g, gs);
            && (forall x :: x in r <==> x == g || x in gs) && |r| == |gs| + 1
            && forall k :: 0 <= k < |r| ==> r[k].RGram?
  {
    if gs != [] && g.count > gs[0].count {
      InsertByCountElements(g, gs[1..]);
      assert gs == [gs[0]] + gs[1..];
    }
  }

  function Filter(rs: seq<Resolved>, keep: Resolved -> bool): (out: seq<Resolved>)
    ensures forall x :: x in out <==> x in rs && keep(x)
    ensures forall k :: 0 <= k < |out| ==> keep(out[k])
    ensures (forall x :: x in rs ==> keep(x)) ==> out == rs
  {
    if rs == [] then []
    else
      assert rs == [rs[0]] + rs[1..];
      (if keep(rs[0]) then [rs[0]] else []) + Filter(rs[1..], keep)
  }

  function MaxGramsPerAnd(strategy: Strategy): nat {
    if strategy == Trigram then BLOCK_MAX_GRAMS_PER_AND else SPARSE_MAX_GRAMS_PER_AND
  }

  predicate IsGram(r: Resolved) { r.RGram? }
  predicate NotGram(r: Resolved) { !r.RGram? }
  predicate HasDoc(rs: seq<Resolved>) { exists k :: 0 <= k < |rs| && rs[k].RDoc? }

  function AndOf(rs: seq<Resolved>): Resolved {
    if |rs| == 1 then rs[0] else RAnd(rs)
  }

  function PruneAnd(children: seq<Resolved>, strategy: Strategy): Resolved {
    if HasDoc(children) then AndOf(Filter(children, NotGram))
    else
      var grams := Filter(children, IsGram);
      var limit := MaxGramsPerAnd(strategy);
      var kept := if |grams| > limit then SortByCount(grams)[..limit] else grams;
      var all := kept + Filter(children, NotGram);
      if all == [] then RAll else AndOf(all)
  }

  function CountOf(r: Resolved): nat { if r.RGram? then r.count else 0 }

  ghost predicate CountsAscend(gs: seq<Resolved>) {
    forall i, j :: 0 <= i < j < |gs| ==> CountOf(gs[i]) <= CountOf(gs[j])
  }

  lemma CountsPrepend(g: Resolved, gs: seq<Resolved>)
    requires CountsAscend(gs) && forall x :: x in gs ==> CountOf(g) <= CountOf(x)
    ensures CountsAscend([g] + gs)
  {
    var all := [g] + gs;
    forall i, j | 0 <= i < j < |all| ensures CountOf(all[i]) <= CountOf(all[j]) {
      assert all[j] == gs[j - 1];
      if i > 0 {
        assert all[i] == gs[i - 1];
      } else {
        assert gs[j - 1] in gs;
      }
    }
  }

  lemma CountsFirst(gs: seq<Resolved>)
    requires CountsAscend(gs) && gs != []
    ensures CountsAscend(gs[1..]) && forall x :: x in gs ==> CountOf(gs[0]) <= CountOf(x)
  {
    assert gs == [gs[0]] + gs[1..];
  }

  lemma CountJoins(g: Resolved, gs: seq<Resolved>)
    ensures multiset([g] + gs) == multiset{g} + multiset(gs)
  {
  }

  lemma {:induction false} InsertKeepsOrder(g: Resolved, gs: seq<Resolved>)
    requires g.RGram? && (forall k :: 0 <= k < |gs| ==> gs[k].RGram?) && CountsAscend(gs)
    ensures CountsAscend(InsertByCount(g, gs)) && multiset(InsertByCount(g, gs)) == multiset{g} + multiset(gs)
  {
    hide CountsAscend;
    InsertByCountElements(g, gs);
    if gs != [] {
      CountsFirst(gs);
    }
    if gs == [] || g.count <= gs[0].count {
      assert InsertByCount(g, gs) == [g] + gs;
      CountsPrepend(g, gs);
      CountJoins(g, gs);
    } else {
      InsertKeepsOrder(g, gs[1..]);
      InsertByCountElements(g, gs[1..]);
      var rest := InsertByCount(g, gs[1..]);
      assert InsertByCount(g, gs) == [gs[0]] + rest;
      assert gs == [gs[0]] + gs[1..];
      CountJoins(gs[0], gs[1..]);
      CountJoins(gs[0], rest);
      hide InsertByCount;
      CountsPrepend(gs[0], rest);
    }
  }

  lemma {:induction false} SortsByCount(gs: seq<Resolved>)
    requires forall k :: 0 <= k < |gs| ==> gs[k].RGram?
    ensures CountsAscend(SortByCount(gs)) && multiset(SortByCount(gs)) == multiset(gs)
  {
    if gs != [] {
      assert gs == [gs[0]] + gs[1..];
      SortsByCount(gs[1..]);
      InsertKeepsOrder(gs[0], SortByCount(gs[1..]));
      CountJoins(gs[0], gs[1..]);
      hide CountsAscend, InsertByCount;
    }
  }

  /** As many grams as the limit allows are kept, and none that is dropped is rarer than one that is kept. */
  ghost predicate KeepsRarest(grams: seq<Resolved>, kept: seq<Resolved>, dropped: seq<Resolved>, limit: nat) {
    && multiset(kept) + multiset(dropped) == multiset(grams)
    && |kept| == (if |grams| <= limit then |grams| else limit)
    && forall i, j :: 0 <= i < |kept| && 0 <= j < |dropped| ==> CountOf(kept[i]) <= CountOf(dropped[j])
  }

  lemma SortedSplit(grams: seq<Resolved>, sorted: seq<Resolved>, limit: nat)
    requires CountsAscend(sorted) && multiset(sorted) == multiset(grams) && |sorted| == |grams| > limit
    ensures KeepsRarest(grams, sorted[..limit], sorted[limit..], limit)
  {
    assert sorted == sorted[..limit] + sorted[limit..];
  }

  /**
   What pruning makes of a conjunction: every child that is no gram stays; with a single document among
   them all grams go, otherwise the rarest stay, up to 64 for trigrams and 8 for sparse grams.
   */
  lemma PruneKeeps(children: seq<Resolved>, strategy: Strategy) returns (kept: seq<Resolved>, dropped: seq<Resolved>)
    ensures HasDoc(children) ==> kept == []
    ensures !HasDoc(children) ==> KeepsRarest(Filter(children, IsGram), kept, dropped, if strategy == Trigram then 64 else 8)
    ensures var all := kept + Filter(children, NotGram); PruneAnd(children, strategy) == if all == [] then RAll else AndOf(all)
  {
    var grams, others, limit := Filter(children, IsGram), Filter(children, NotGram), MaxGramsPerAnd(strategy);
    kept, dropped := [], [];
    if HasDoc(children) {
      var k :| 0 <= k < |children| && children[k].RDoc?;
      assert children[k] in children && children[k] in others;
      assert [] + others == others;
    } else if |grams| > limit {
      SortsByCount(grams);
      kept, dropped := SortByCount(grams)[..limit], SortByCount(grams)[limit..];
      hide CountsAscend, KeepsRarest, SortByCount, Filter, HasDoc;
      SortedSplit(grams, SortByCount(grams), limit);
    } else {
      kept := grams;
      hide Filter;
    }
  }

  // ---------------------------------------------------------------------------------------------
  // Resolution

  function ResolveGram(g: Gram, idSpace: nat, lookup: Lookup): Result<Resolved> {
    match lookup(g)
    case None => Ok(RNone)
    case Some(value) =>
      var (offset, count) := UnpackPosting(value.packed);
      if count == 1 then
        (if offset < U32_SPACE && offset < idSpace then Ok(RDoc(offset)) else Err)
      else if count >= idSpace then Ok(RAll)
      else Ok(RGram(offset, count,
                    if value.len.Some? then value.len.value else Postings.PostingBlockLen(count, idSpace)))
  }

  function Resolve(q: Query, idSpace: nat, strategy: Strategy, lookup: Lookup): Result<Resolved>
    decreases q, 0
  {
    match q
    case All => Ok(RAll)
    case Gram(g) => ResolveGram(g, idSpace, lookup)
    case And(subs) =>
      (match ResolveAnd(subs, idSpace, strategy, lookup)
       case Err => Err
       case Ok(None) => Ok(RNone)
       case Ok(Some(children)) => Ok(PruneAnd(children, strategy)))
    case Or(subs) =>
      (match ResolveOr(subs, idSpace, strategy, lookup)
       case Err => Err
       case Ok(None) => Ok(RAll)
       case Ok(Some(children)) =>
         if |children| == 1 then Ok(children[0])
         else if children == [] then Ok(RNone)
         else Ok(ROr(children)))
  }

  /** Children of an AND in order; `None` once one of them resolved to nothing. */
  function ResolveAnd(subs: seq<Query>, idSpace: nat, strategy: Strategy, lookup: Lookup): Result<Option<seq<Resolved>>>
    decreases subs, 0
  {
    if subs == [] then Ok(Some([]))
    else
      match Resolve(subs[0], idSpace, strategy, lookup)
      case Err => Err
      case Ok(r) =>
        if r.RNone? then Ok(None)
        else
          match ResolveAnd(subs[1..], idSpace, strategy, lookup)
          case Err => Err
          case Ok(None) => Ok(None)
          case Ok(Some(rest)) => Ok(Some(if r.RAll? then rest else [r] + rest))
  }

  /** Children of an OR in order; `None` once one of them resolved to everything. */
  function ResolveOr(subs: seq<Query>, idSpace: nat, strategy: Strategy, lookup: Lookup): Result<Option<seq<Resolved>>>
    decreases subs, 0
  {
    if subs == [] then Ok(Some([]))
    else
      match Resolve(subs[0], idSpace, strategy, lookup)
      case Err => Err
      case Ok(r) =>
        if r.RAll? then Ok(None)
        else
          match ResolveOr(subs[1..], idSpace, strategy, lookup)
          case Err => Err
          case Ok(None) => Ok(None)
          case Ok(Some(rest)) => Ok(Some(if r.RNone? then rest else [r] + rest))
  }

  // ---------------------------------------------------------------------------------------------
  // Evaluation

  /** The inclusive range of ids a posting id stands for; `None` leaves ids alone. */
  type Expand = Option<nat -> (nat, nat)>

  type Blocks = map<nat, seq<nat>>

  predicate Within(range: (nat, nat), x: nat) { range.0 <= x <= range.1 }

  predicate InExpansion(expand: Expand, id: nat, x: nat) {
    if expand.None? then x == id else Within(expand.value(id), x)
  }

  function RangeSeq(lo: nat, hi: nat): (r: seq<nat>)
    ensures forall x :: x in r <==> lo <= x <= hi
    decreases hi
  {
    if lo > hi then [] else if hi == 0 then [0] else RangeSeq(lo, hi - 1) + [hi]
  }

  function FlatExpand(ids: seq<nat>, expand: nat -> (nat, nat)): (r: seq<nat>)
    ensures forall x :: x in r <==> exists k :: 0 <= k < |ids| && Within(expand(ids[k]), x)
  {
    if ids == [] then []
    else
      var last := expand(ids[|ids| - 1]);
      FlatExpand(ids[..|ids| - 1], expand) + RangeSeq(last.0, last.1)
  }

  function ExpandIds(ids: seq<nat>, expand: Expand): seq<nat> {
    if expand.None? then ids else SortDedup(IdLess, FlatExpand(ids, expand.value))
  }

  /** Intersection, keeping the order of `a`. */
  function Intersect(a: seq<nat>, b: seq<nat>): (r: seq<nat>)
    ensures forall x :: x in r <==> x in a && x in b
  {
    if a == [] then []
    else
      assert a == a[..|a| - 1] + [a[|a| - 1]];
      Intersect(a[..|a| - 1], b) + (if a[|a| - 1] in b then [a[|a| - 1]] else [])
  }

  function InsertByLen(s: seq<nat>, sets: seq<seq<nat>>): (r: seq<seq<nat>>)
    ensures forall x :: x in r <==> x == s || x in sets
    ensures |r| == |sets| + 1
  {
    if sets == [] || |s| <= |sets[0]| then [s] + sets
    else
      assert sets == [sets[0]] + sets[1..];
      [sets[0]] + InsertByLen(s, sets[1..])
  }

  /** The stable sort that intersects the smallest sets first. */
  function SortByLen(sets: seq<seq<nat>>): (r: seq<seq<nat>>)
    ensures forall x :: x in r <==> x in sets
    ensures |r| == |sets|
  {
    if sets == [] then []
    else
      assert sets == [sets[0]] + sets[1..];
      InsertByLen(sets[0], SortByLen(sets[1..]))
  }

  function IntersectAll(acc: seq<nat>, sets: seq<seq<nat>>): seq<nat>
    decreases |sets|
  {
    if sets == [] then acc
    else
      var next := Intersect(acc, sets[0]);
      if next == [] then next else IntersectAll(next, sets[1..])
  }

  function Flatten(lists: seq<seq<nat>>): (r: seq<nat>)
    ensures forall x :: x in r <==> exists k :: 0 <= k < |lists| && x in lists[k]
  {
    if lists == [] then []
    else
      assert lists == lists[..|lists| - 1] + [lists[|lists| - 1]];
      Flatten(lists[..|lists| - 1]) + lists[|lists| - 1]
  }

  function UnionMany(lists: seq<seq<nat>>): seq<nat> {
    SortDedup(IdLess, Flatten(lists))
  }

  function Evaluate(r: Resolved, blocks: Blocks, expand: Expand): Result<Selection>
    decreases r, 0
  {
    match r
    case RAll => Ok(SelAll)
    case RNone => Ok(Ids([]))
    case RDoc(id) => Ok(Ids(ExpandIds([id], expand)))
    case RGram(offset, _, _) => if offset in blocks then Ok(Ids(ExpandIds(blocks[offset], expand))) else Err
    case RAnd(children) =>
      (match EvaluateAnd(children, blocks, expand)
       case Err => Err
       case Ok(None) => Ok(Ids([]))
       case Ok(Some(sets)) =>
         var sorted := SortByLen(sets);
         if sorted == [] then Ok(SelAll) else Ok(Ids(IntersectAll(sorted[0], sorted[1..]))))
    case ROr(children) =>
      (match EvaluateOr(children, blocks, expand)
       case Err => Err
       case Ok(None) => Ok(SelAll)
       case Ok(Some(lists)) => Ok(Ids(UnionMany(lists))))
  }

  /** The constraining sets of an AND; `None` once one of them is empty. */
  function EvaluateAnd(rs: seq<Resolved>, blocks: Blocks, expand: Expand): Result<Option<seq<seq<nat>>>>
    decreases rs, 0
  {
    if rs == [] then Ok(Some([]))
    else
      match Evaluate(rs[0], blocks, expand)
      case Err => Err
      case Ok(sel) =>
        if sel == Ids([]) then Ok(None)
        else
          match EvaluateAnd(rs[1..], blocks, expand)
          case Err => Err
          case Ok(None) => Ok(None)
          case Ok(Some(rest)) => Ok(Some(if sel.SelAll? then rest else [sel.ids] + rest))
  }

  /** The lists of an OR; `None` once one of them is everything. */
  function EvaluateOr(rs: seq<Resolved>, blocks: Blocks, expand: Expand): Result<Option<seq<seq<nat>>>>
    decreases rs, 0
  {
    if rs == [] then Ok(Some([]))
    else
      match Evaluate(rs[0], blocks, expand)
      case Err => Err
      case Ok(SelAll) => Ok(None)
      case Ok(Ids(ids)) =>
        match EvaluateOr(rs[1..], blocks, expand)
        case Err => Err
        case Ok(None) => Ok(None)
        case Ok(Some(rest)) => Ok(Some([ids] + rest))
  }

  // ---------------------------------------------------------------------------------------------
  // What resolution and evaluation mean, as sets

  /** A dictionary together with the posting lists it stands for. */
  datatype Dictionary = Dictionary(lookup: Lookup, postings: Gram -> seq<nat>, store: nat -> seq<nat>, idSpace: nat)

  /** The dictionary entry of a gram describes its posting list; singletons are inlined. */
  ghost predicate EntryOk(d: Dictionary, g: Gram) {
    var ids := d.postings(g);
    && StrictlySorted(IdLess, ids)
    && (forall k :: 0 <= k < |ids| ==> ids[k] < d.idSpace)
    && (d.lookup(g).None? <==> ids == [])
    && (|ids| == 1 ==> UnpackPosting(d.lookup(g).value.packed) == (ids[0], 1))
    && (|ids| > 1 ==>
          && UnpackPosting(d.lookup(g).value.packed).1 == |ids|
          && d.store(UnpackPosting(d.lookup(g).value.packed).0) == ids)
  }

  ghost predicate DictionaryOk(d: Dictionary) {
    d.idSpace <= U32_SPACE && forall g :: EntryOk(d, g)
  }

  ghost predicate HasExpansion(ids: seq<nat>, expand: Expand, x: nat) {
    exists k :: 0 <= k < |ids| && InExpansion(expand, ids[k], x)
  }

  /** The exact meaning of a query: set algebra over expanded posting lists. */
  ghost predicate InExact(q: Query, d: Dictionary, expand: Expand, x: nat)
    decreases q
  {
    match q
    case All => true
    case Gram(g) => HasExpansion(d.postings(g), expand, x)
    case And(subs) => forall k :: 0 <= k < |subs| ==> InExact(subs[k], d, expand, x)
    case Or(subs) => exists k :: 0 <= k < |subs| && InExact(subs[k], d, expand, x)
  }

  ghost predicate InResolved(r: Resolved, d: Dictionary, expand: Expand, x: nat)
    decreases r
  {
    match r
    case RAll => true
    case RNone => false
    case RDoc(id) => InExpansion(expand, id, x)
    case RGram(offset, _, _) => HasExpansion(d.store(offset), expand, x)
    case RAnd(children) => forall k :: 0 <= k < |children| ==> InResolved(children[k], d, expand, x)
    case ROr(children) => exists k :: 0 <= k < |children| && InResolved(children[k], d, expand, x)
  }

  // ---------------------------------------------------------------------------------------------
  // Resolution and pruning only ever widen

  lemma ResolveGramMeans(g: Gram, d: Dictionary, expand: Expand, x: nat)
    requires DictionaryOk(d)
    ensures ResolveGram(g, d.idSpace, d.lookup).Ok?
    ensures var r := ResolveGram(g, d.idSpace, d.lookup).value;
            && (InExact(Gram(g), d, expand, x) ==> InResolved(r, d, expand, x))
            && (!r.RAll? && InResolved(r, d, expand, x) ==> InExact(Gram(g), d, expand, x))
            && (r.RAll? ==> |d.postings(g)| >= d.idSpace)
  {
    assert EntryOk(d, g);
    var ids := d.postings(g);
    if |ids| == 1 && InResolved(RDoc(ids[0]), d, expand, x) {
      assert InExpansion(expand, ids[0], x);
    }
  }

  lemma PruneWidens(children: seq<Resolved>, strategy: Strategy, d: Dictionary, expand: Expand, x: nat)
    requires forall k :: 0 <= k < |children| ==> InResolved(children[k], d, expand, x)
    ensures InResolved(PruneAnd(children, strategy), d, expand, x)
  {
    forall r | r in children ensures InResolved(r, d, expand, x) {
    }
    hide InResolved, SortByCount;
    assert forall r :: r in Filter(children, NotGram) ==> InResolved(r, d, expand, x);
    var grams := Filter(children, IsGram);
    assert forall r :: r in SortByCount(grams) ==> InResolved(r, d, expand, x);
    AndOfMeans(Filter(children, NotGram), d, expand, x);
    var kept := if |grams| > MaxGramsPerAnd(strategy) then SortByCount(grams)[..MaxGramsPerAnd(strategy)] else grams;
    AndOfMeans(kept + Filter(children, NotGram), d, expand, x);
    RAllMeans(d, expand, x);
  }

  lemma RAllMeans(d: Dictionary, expand: Expand, x: nat)
    ensures InResolved(RAll, d, expand, x) && !InResolved(RNone, d, expand, x)
  {
  }

  lemma AndOfMeans(rs: seq<Resolved>, d: Dictionary, expand: Expand, x: nat)
    ensures (forall r :: r in rs ==> InResolved(r, d, expand, x)) <==> InResolved(AndOf(rs), d, expand, x)
  {
    assert forall k :: 0 <= k < |rs| ==> rs[k] in rs;
    if |rs| == 1 {
    } else if InResolved(RAnd(rs), d, expand, x) {
      forall r | r in rs ensures InResolved(r, d, expand, x) {
        var k :| 0 <= k < |rs| && rs[k] == r;
      }
    }
  }

  lemma OrMeans(rs: seq<Resolved>, r: Resolved, d: Dictionary, expand: Expand, x: nat)
    requires r in rs && InResolved(r, d, expand, x)
    ensures InResolved(ROr(rs), d, expand, x)
  {
  }

  /** No id of the query's exact meaning is lost by resolving and pruning. */
  lemma {:induction false} ResolveSound(q: Query, d: Dictionary, strategy: Strategy, expand: Expand, x: nat)
    requires DictionaryOk(d)
    ensures Resolve(q, d.idSpace, strategy, d.lookup).Ok?
    ensures InExact(q, d, expand, x) ==>
              InResolved(Resolve(q, d.idSpace, strategy, d.lookup).value, d, expand, x)
    decreases q, 0
  {
    hide DictionaryOk, PruneAnd, ResolveGram;
    match q
    case All =>
    case Gram(g) =>
      ResolveGramMeans(g, d, expand, x);
    case And(subs) =>
      ResolveAndSound(subs, d, strategy, expand, x);
      var c := ResolveAnd(subs, d.idSpace, strategy, d.lookup).value;
      if c.Some? && InExact(q, d, expand, x) {
        assert forall k :: 0 <= k < |c.value| ==> c.value[k] in c.value;
        PruneWidens(c.value, strategy, d, expand, x);
      }
    case Or(subs) =>
      if InExact(q, d, expand, x) {
        var k :| 0 <= k < |subs| && InExact(subs[k], d, expand, x);
        ResolveOrSound(subs, d, strategy, expand, x, k);
      } else {
        ResolveOrSound(subs, d, strategy, expand, x, |subs|);
      }
      var c := ResolveOr(subs, d.idSpace, strategy, d.lookup).value;
      if c.Some? && InExact(q, d, expand, x) {
        var r :| r in c.value && InResolved(r, d, expand, x);
        OrMeans(c.value, r, d, expand, x);
      }
  }

  lemma {:induction false} ResolveAndSound(subs: seq<Query>, d: Dictionary, strategy: Strategy, expand: Expand, x: nat)
    requires DictionaryOk(d)
    ensures var c := ResolveAnd(subs, d.idSpace, strategy, d.lookup);
            c.Ok? && ((forall k :: 0 <= k < |subs| ==> InExact(subs[k], d, expand, x)) ==>
                        c.value.Some? && forall r :: r in c.value.value ==> InResolved(r, d, expand, x))
    decreases subs, 0
  {
    hide DictionaryOk, Resolve, InResolved, InExact;
    if subs != [] {
      ResolveSound(subs[0], d, strategy, expand, x);
      ResolveAndSound(subs[1..], d, strategy, expand, x);
      RAllMeans(d, expand, x);
      assert forall k :: 1 <= k < |subs| ==> subs[1..][k - 1] == subs[k];
    }
  }

  /** `k` is the branch known to hold, or past the end when none is. */
  lemma {:induction false} ResolveOrSound(subs: seq<Query>, d: Dictionary, strategy: Strategy, expand: Expand, x: nat, k: nat)
    requires DictionaryOk(d) && k <= |subs|
    ensures var c := ResolveOr(subs, d.idSpace, strategy, d.lookup);
            c.Ok? && (k < |subs| && InExact(subs[k], d, expand, x) && c.value.Some? ==>
                        exists r :: r in c.value.value && InResolved(r, d, expand, x))
    decreases subs, 0
  {
    hide DictionaryOk, Resolve, InResolved, InExact;
    if subs != [] {
      ResolveSound(subs[0], d, strategy, expand, x);
      ResolveOrSound(subs[1..], d, strategy, expand, x, if k == 0 then |subs| - 1 else k - 1);
      RAllMeans(d, expand, x);
    }
  }

  // ---------------------------------------------------------------------------------------------
  // When nothing was dropped, resolution is exact

  /** Pruning keeps every child: no singleton displaces a gram, and the grams fit under the cap. */
  predicate PruneKeepsAll(children: seq<Resolved>, strategy: Strategy) {
    && (HasDoc(children) ==> Filter(children, IsGram) == [])
    && |Filter(children, IsGram)| <= MaxGramsPerAnd(strategy)
  }

  predicate NothingDropped(q: Query, idSpace: nat, strategy: Strategy, lookup: Lookup)
    decreases q
  {
    match q
    case All => true
    case Gram(_) => true
    case And(subs) =>
      && (forall k :: 0 <= k < |subs| ==> NothingDropped(subs[k], idSpace, strategy, lookup))
      && (var c := ResolveAnd(subs, idSpace, strategy, lookup);
          c.Ok? && c.value.Some? ==> PruneKeepsAll(c.value.value, strategy))
    case Or(subs) => forall k :: 0 <= k < |subs| ==> NothingDropped(subs[k], idSpace, strategy, lookup)
  }

  /** Each id expands to a range of ids that contains it. */
  ghost predicate ExpandsAround(expand: Expand) {
    expand.Some? ==> forall y: nat :: Within(expand.value(y), y)
  }

  /** A strictly ascending list of `n` ids below `n` holds every id. */
  lemma {:induction false} FullList(ids: seq<nat>, n: nat)
    requires StrictlySorted(IdLess, ids) && |ids| >= n
    requires forall k :: 0 <= k < |ids| ==> ids[k] < n
    ensures |ids| == n && forall k :: 0 <= k < n ==> ids[k] == k
  {
    if |ids| > 0 {
      var last, front := ids[|ids| - 1], ids[..|ids| - 1];
      forall k | 0 <= k < |front| ensures front[k] < last {
        assert IdLess(ids[k], ids[|ids| - 1]);
      }
      FullList(front, n - 1);
      assert |front| > 0 ==> front[|front| - 1] == |front| - 1;
      assert forall k :: 0 <= k < |front| ==> ids[k] == front[k];
    }
  }

  lemma FullGramIsExact(g: Gram, d: Dictionary, expand: Expand, x: nat)
    requires DictionaryOk(d) && ExpandsAround(expand) && x < d.idSpace && |d.postings(g)| >= d.idSpace
    ensures InExact(Gram(g), d, expand, x)
  {
    assert EntryOk(d, g);
    FullList(d.postings(g), d.idSpace);
    assert InExpansion(expand, d.postings(g)[x], x);
  }

  lemma PruneExact(children: seq<Resolved>, strategy: Strategy, d: Dictionary, expand: Expand, x: nat)
    requires PruneKeepsAll(children, strategy) && InResolved(PruneAnd(children, strategy), d, expand, x)
    ensures forall r :: r in children ==> InResolved(r, d, expand, x)
  {
    hide InResolved, SortByCount;
    var grams, others := Filter(children, IsGram), Filter(children, NotGram);
    if HasDoc(children) {
      AndOfMeans(others, d, expand, x);
      assert forall r :: r in children && IsGram(r) ==> r in grams;
    } else {
      AndOfMeans(grams + others, d, expand, x);
      forall r | r in children ensures InResolved(r, d, expand, x) {
        assert r in grams || r in others;
        assert r in grams + others;
      }
    }
  }

  /** If no gram was dropped, resolution adds no id either. */
  lemma {:induction false} ResolveExact(q: Query, d: Dictionary, strategy: Strategy, expand: Expand, x: nat)
    requires DictionaryOk(d) && ExpandsAround(expand) && x < d.idSpace
    requires NothingDropped(q, d.idSpace, strategy, d.lookup)
    requires var r := Resolve(q, d.idSpace, strategy, d.lookup); r.Ok? && InResolved(r.value, d, expand, x)
    ensures InExact(q, d, expand, x)
    decreases q, 0
  {
    hide DictionaryOk, ExpandsAround, ResolveGram, PruneAnd, PruneKeepsAll;
    match q
    case All =>
    case Gram(g) =>
      ResolveGramMeans(g, d, expand, x);
      if |d.postings(g)| >= d.idSpace {
        FullGramIsExact(g, d, expand, x);
      }
    case And(subs) =>
      var c := ResolveAnd(subs, d.idSpace, strategy, d.lookup).value;
      RAllMeans(d, expand, x);
      PruneExact(c.value, strategy, d, expand, x);
      ResolveAndExact(subs, d, strategy, expand, x);
    case Or(subs) =>
      var c := ResolveOr(subs, d.idSpace, strategy, d.lookup).value;
      if c.Some? {
        RAllMeans(d, expand, x);
        ResolvedOrHas(c.value, d, expand, x);
      }
      ResolveOrExact(subs, d, strategy, expand, x);
  }

  lemma ResolvedOrHas(rs: seq<Resolved>, d: Dictionary, expand: Expand, x: nat)
    requires InResolved(if |rs| == 1 then rs[0] else if rs == [] then RNone else ROr(rs), d, expand, x)
    ensures exists r :: r in rs && InResolved(r, d, expand, x)
  {
    if |rs| == 1 {
      assert rs[0] in rs;
    } else if rs != [] {
      var k :| 0 <= k < |rs| && InResolved(rs[k], d, expand, x);
      assert rs[k] in rs;
    }
  }

  lemma {:induction false} ResolveAndExact(subs: seq<Query>, d: Dictionary, strategy: Strategy, expand: Expand, x: nat)
    requires DictionaryOk(d) && ExpandsAround(expand) && x < d.idSpace
    requires forall k :: 0 <= k < |subs| ==> NothingDropped(subs[k], d.idSpace, strategy, d.lookup)
    requires var c := ResolveAnd(subs, d.idSpace, strategy, d.lookup);
             c.Ok? && c.value.Some? && forall r :: r in c.value.value ==> InResolved(r, d, expand, x)
    ensures forall k :: 0 <= k < |subs| ==> InExact(subs[k], d, expand, x)
    decreases subs, 0
  {
    hide DictionaryOk, ExpandsAround, Resolve, InResolved, InExact, NothingDropped;
    if subs != [] {
      RAllMeans(d, expand, x);
      var r := Resolve(subs[0], d.idSpace, strategy, d.lookup).value;
      var c := ResolveAnd(subs, d.idSpace, strategy, d.lookup).value.value;
      assert !r.RAll? ==> r in c;
      ResolveExact(subs[0], d, strategy, expand, x);
      assert forall k :: 0 <= k < |subs[1..]| ==> subs[1..][k] == subs[k + 1];
      ResolveAndExact(subs[1..], d, strategy, expand, x);
    }
  }

  lemma {:induction false} ResolveOrExact(subs: seq<Query>, d: Dictionary, strategy: Strategy, expand: Expand, x: nat)
    requires DictionaryOk(d) && ExpandsAround(expand) && x < d.idSpace
    requires forall k :: 0 <= k < |subs| ==> NothingDropped(subs[k], d.idSpace, strategy, d.lookup)
    requires var c := ResolveOr(subs, d.idSpace, strategy, d.lookup);
             c.Ok? && (c.value.None? || exists r :: r in c.value.value && InResolved(r, d, expand, x))
    ensures exists k :: 0 <= k < |subs| && InExact(subs[k], d, expand, x)
    decreases subs, 0
  {
    hide DictionaryOk, ExpandsAround, Resolve, InResolved, InExact, NothingDropped;
    if subs != [] {
      RAllMeans(d, expand, x);
      var r := Resolve(subs[0], d.idSpace, strategy, d.lookup).value;
      if InResolved(r, d, expand, x) {
        ResolveExact(subs[0], d, strategy, expand, x);
      } else {
        assert forall k :: 0 <= k < |subs[1..]| ==> subs[1..][k] == subs[k + 1];
        ResolveOrExact(subs[1..], d, strategy, expand, x);
        var k :| 0 <= k < |subs[1..]| && InExact(subs[1..][k], d, expand, x);
        assert InExact(subs[k + 1], d, expand, x);
      }
    }
  }

  // ---------------------------------------------------------------------------------------------
  // Evaluation computes the resolved meaning, over the blocks it asked for

  ghost predicate BlocksOk(blocks: Blocks, d: Dictionary) {
    forall o :: o in blocks ==> blocks[o] == d.store(o) && StrictlySorted(IdLess, blocks[o])
  }

  /** `blocks_needed`: offset to (count, byte length), over every gram of the resolved query. */
  function BlocksNeeded(r: Resolved): map<nat, (nat, nat)>
    decreases r, 0
  {
    match r
    case RGram(offset, count, len) => map[offset := (count, len)]
    case RAnd(children) => AllBlocksNeeded(children)
    case ROr(children) => AllBlocksNeeded(children)
    case _ => map[]
  }

  function AllBlocksNeeded(rs: seq<Resolved>): map<nat, (nat, nat)>
    decreases rs, 0
  {
    if rs == [] then map[] else BlocksNeeded(rs[0]) + AllBlocksNeeded(rs[1..])
  }

  /** The program's accumulator form. */
  method CollectBlocks(r: Resolved, out: map<nat, (nat, nat)>) returns (all: map<nat, (nat, nat)>)
    ensures all == out + BlocksNeeded(r)
    decreases r, 1
  {
    match r {
      case RGram(offset, count, len) =>
        all := out[offset := (count, len)];
      case RAnd(children) =>
        all := CollectAllBlocks(children, out);
      case ROr(children) =>
        all := CollectAllBlocks(children, out);
      case _ =>
        all := out;
    }
  }

  method CollectAllBlocks(rs: seq<Resolved>, out: map<nat, (nat, nat)>) returns (all: map<nat, (nat, nat)>)
    ensures all == out + AllBlocksNeeded(rs)
    decreases rs, 0
  {
    hide BlocksNeeded, AllBlocksNeeded;
    all := out;
    assert rs[0..] == rs;
    for k := 0 to |rs|
      invariant all + AllBlocksNeeded(rs[k..]) == out + AllBlocksNeeded(rs)
    {
      AllBlocksStep(rs, k);
      all := CollectBlocks(rs[k], all);
    }
    AllBlocksStep(rs, |rs|);
  }

  lemma AllBlocksStep(rs: seq<Resolved>, k: nat)
    requires k <= |rs|
    ensures k < |rs| ==> AllBlocksNeeded(rs[k..]) == BlocksNeeded(rs[k]) + AllBlocksNeeded(rs[k + 1..])
    ensures k == |rs| ==> AllBlocksNeeded(rs[k..]) == map[]
  {
    if k < |rs| {
      assert rs[k..][1..] == rs[k + 1..];
    }
  }

  /** The two-index intersection loop over sorted lists. */
  method IntersectSorted(a: seq<nat>, b: seq<nat>) returns (out: seq<nat>)
    requires StrictlySorted(IdLess, a) && StrictlySorted(IdLess, b)
    ensures out == Intersect(a, b)
  {
    hide Intersect;
    out := [];
    var i, j := 0, 0;
    IntersectStep(a, b, 0);
    while i < |a| && j < |b|
      invariant 0 <= i <= |a| && 0 <= j <= |b|
      invariant out == Intersect(a[..i], b)
      invariant i < |a| ==> forall m :: 0 <= m < j ==> b[m] < a[i]
      decreases |a| - i + |b| - j
    {
      IntersectStep(a, b, i);
      forall m | j < m < |b| ensures b[j] < b[m] {
        assert IdLess(b[j], b[m]);
      }
      assert i + 1 < |a| ==> IdLess(a[i], a[i + 1]);
      if a[i] < b[j] {
        i := i + 1;
      } else if a[i] > b[j] {
        j := j + 1;
      } else {
        out := out + [a[i]];
        i, j := i + 1, j + 1;
      }
    }
    forall k | i <= k < |a| && j == |b| ensures a[k] !in b {
      assert k > i ==> IdLess(a[i], a[k]);
    }
    IntersectTail(a, b, i);
  }

  lemma IntersectStep(a: seq<nat>, b: seq<nat>, i: nat)
    requires i <= |a|
    ensures i == 0 ==> Intersect(a[..i], b) == []
    ensures i < |a| ==> Intersect(a[..i + 1], b) == Intersect(a[..i], b) + (if a[i] in b then [a[i]] else [])
  {
    if i < |a| {
      assert a[..i + 1][..i] == a[..i];
    }
  }

  lemma {:induction false} IntersectTail(a: seq<nat>, b: seq<nat>, i: nat)
    requires i <= |a| && forall k :: i <= k < |a| ==> a[k] !in b
    ensures Intersect(a, b) == Intersect(a[..i], b)
    decreases |a|
  {
    if i < |a| {
      IntersectTail(a[..|a| - 1], b, i);
      assert a[..|a| - 1][..i] == a[..i];
    } else {
      assert a[..i] == a;
    }
  }

  lemma {:induction false} IntersectSorts(a: seq<nat>, b: seq<nat>)
    requires StrictlySorted(IdLess, a)
    ensures StrictlySorted(IdLess, Intersect(a, b))
  {
    if a != [] {
      var front := a[..|a| - 1];
      IntersectSorts(front, b);
      var r := Intersect(front, b);
      forall k | 0 <= k < |r| ensures IdLess(r[k], a[|a| - 1]) {
        assert r[k] in front;
        var m :| 0 <= m < |front| && front[m] == r[k];
        assert IdLess(a[m], a[|a| - 1]);
      }
    }
  }

  lemma {:induction false} IntersectAllMeans(acc: seq<nat>, sets: seq<seq<nat>>)
    requires StrictlySorted(IdLess, acc)
    ensures StrictlySorted(IdLess, IntersectAll(acc, sets))
    ensures forall x :: x in IntersectAll(acc, sets) <==> x in acc && forall s :: s in sets ==> x in s
    decreases |sets|
  {
    if sets != [] {
      IntersectSorts(acc, sets[0]);
      var next := Intersect(acc, sets[0]);
      hide Intersect;
      assert forall s :: s in sets <==> s == sets[0] || s in sets[1..];
      if next != [] {
        IntersectAllMeans(next, sets[1..]);
      }
    }
  }

  lemma ExpandIdsMeans(ids: seq<nat>, expand: Expand)
    requires StrictlySorted(IdLess, ids)
    ensures StrictlySorted(IdLess, ExpandIds(ids, expand))
    ensures forall x :: x in ExpandIds(ids, expand) <==> HasExpansion(ids, expand, x)
  {
    IdLessTotal();
    if expand.Some? {
      SortDedupCorrect(IdLess, FlatExpand(ids, expand.value));
      forall x ensures x in FlatExpand(ids, expand.value) <==> HasExpansion(ids, expand, x) {
      }
    } else {
      forall x | x in ids ensures HasExpansion(ids, expand, x) {
        var k :| 0 <= k < |ids| && ids[k] == x;
        assert InExpansion(expand, ids[k], x);
      }
    }
  }

  /** The selection is the resolved meaning: sorted, duplicate-free, or everything. */
  ghost predicate Selects(sel: Selection, r: Resolved, d: Dictionary, expand: Expand) {
    match sel
    case SelAll => forall x :: InResolved(r, d, expand, x)
    case Ids(ids) => StrictlySorted(IdLess, ids) && forall x :: x in ids <==> InResolved(r, d, expand, x)
  }

  /**
   With every block of `BlocksNeeded` at hand evaluation succeeds, and the ids it returns are
   exactly those of the resolved query, strictly ascending.
   */
  lemma {:induction false} EvaluateMeans(r: Resolved, blocks: Blocks, d: Dictionary, expand: Expand)
    requires BlocksOk(blocks, d) && BlocksNeeded(r).Keys <= blocks.Keys
    ensures Evaluate(r, blocks, expand).Ok? && Selects(Evaluate(r, blocks, expand).value, r, d, expand)
    decreases r, 0
  {
    hide ExpandIds, HasExpansion, IntersectAll, SortByLen;
    match r
    case RAll =>
    case RNone =>
    case RDoc(id) =>
      ExpandIdsMeans([id], expand);
      forall x ensures HasExpansion([id], expand, x) <==> InExpansion(expand, id, x) {
        SingletonExpansion(id, expand, x);
      }
    case RGram(offset, _, _) =>
      ExpandIdsMeans(blocks[offset], expand);
    case RAnd(children) =>
      EvaluateAndMeans(children, blocks, d, expand);
      AndSelects(children, EvaluateAnd(children, blocks, expand).value, d, expand);
    case ROr(children) =>
      EvaluateOrMeans(children, blocks, d, expand);
      OrSelects(children, EvaluateOr(children, blocks, expand).value, d, expand);
  }

  lemma OrSelects(children: seq<Resolved>, lists: Option<seq<seq<nat>>>, d: Dictionary, expand: Expand)
    requires ListsMean(lists, children, d, expand)
    ensures Selects(if lists.None? then SelAll else Ids(UnionMany(lists.value)), ROr(children), d, expand)
  {
    assert forall x :: AnyResolved(children, d, expand, x) <==> InResolved(ROr(children), d, expand, x);
    hide InResolved, AnyResolved;
    if lists.Some? {
      IdLessTotal();
      SortDedupCorrect(IdLess, Flatten(lists.value));
    }
  }

  lemma AndSelects(children: seq<Resolved>, sets: Option<seq<seq<nat>>>, d: Dictionary, expand: Expand)
    requires SetsMean(sets, children, d, expand)
    ensures sets.None? ==> Selects(Ids([]), RAnd(children), d, expand)
    ensures sets.Some? ==>
              var sorted := SortByLen(sets.value);
              Selects(if sorted == [] then SelAll else Ids(IntersectAll(sorted[0], sorted[1..])),
                      RAnd(children), d, expand)
  {
    assert forall x :: AllResolved(children, d, expand, x) <==> InResolved(RAnd(children), d, expand, x);
    hide InResolved, AllResolved, IntersectAll;
    if sets.Some? && sets.value != [] {
      var sorted := SortByLen(sets.value);
      hide SortByLen;
      assert sorted[0] in sets.value;
      IntersectAllMeans(sorted[0], sorted[1..]);
      assert forall s :: s in sorted <==> s == sorted[0] || s in sorted[1..];
    }
  }

  lemma SingletonExpansion(id: nat, expand: Expand, x: nat)
    ensures HasExpansion([id], expand, x) <==> InExpansion(expand, id, x)
  {
    if InExpansion(expand, id, x) {
      assert InExpansion(expand, [id][0], x);
    }
  }

  ghost predicate AllResolved(rs: seq<Resolved>, d: Dictionary, expand: Expand, x: nat) {
    forall k :: 0 <= k < |rs| ==> InResolved(rs[k], d, expand, x)
  }

  ghost predicate AnyResolved(rs: seq<Resolved>, d: Dictionary, expand: Expand, x: nat) {
    exists k :: 0 <= k < |rs| && InResolved(rs[k], d, expand, x)
  }

  lemma AllResolvedCons(rs: seq<Resolved>, d: Dictionary, expand: Expand, x: nat)
    requires rs != []
    ensures AllResolved(rs, d, expand, x) <==> InResolved(rs[0], d, expand, x) && AllResolved(rs[1..], d, expand, x)
    ensures AnyResolved(rs, d, expand, x) <==> InResolved(rs[0], d, expand, x) || AnyResolved(rs[1..], d, expand, x)
  {
    hide InResolved;
    assert forall k :: 1 <= k < |rs| ==> rs[k] == rs[1..][k - 1];
  }

  ghost predicate SetsMean(sets: Option<seq<seq<nat>>>, rs: seq<Resolved>, d: Dictionary, expand: Expand) {
    && (sets.None? ==> forall x :: !AllResolved(rs, d, expand, x))
    && (sets.Some? ==>
          && (forall s :: s in sets.value ==> StrictlySorted(IdLess, s))
          && forall x :: AllResolved(rs, d, expand, x) <==> forall s :: s in sets.value ==> x in s)
  }

  lemma AndStep(rs: seq<Resolved>, sel: Selection, rest: Option<seq<seq<nat>>>, d: Dictionary, expand: Expand)
    requires rs != [] && Selects(sel, rs[0], d, expand)
    requires SetsMean(rest, rs[1..], d, expand)
    ensures sel == Ids([]) || rest.None? ==> SetsMean(None, rs, d, expand)
    ensures sel != Ids([]) && rest.Some? ==>
              SetsMean(Some(if sel.SelAll? then rest.value else [sel.ids] + rest.value), rs, d, expand)
  {
    forall x ensures AllResolved(rs, d, expand, x) <==>
                       InResolved(rs[0], d, expand, x) && AllResolved(rs[1..], d, expand, x) {
      AllResolvedCons(rs, d, expand, x);
    }
    hide InResolved, AllResolved;
    if sel.Ids? && rest.Some? {
      assert forall s :: s in [sel.ids] + rest.value <==> s == sel.ids || s in rest.value;
    }
  }

  lemma {:induction false} EvaluateAndMeans(rs: seq<Resolved>, blocks: Blocks, d: Dictionary, expand: Expand)
    requires BlocksOk(blocks, d) && AllBlocksNeeded(rs).Keys <= blocks.Keys
    ensures EvaluateAnd(rs, blocks, expand).Ok? && SetsMean(EvaluateAnd(rs, blocks, expand).value, rs, d, expand)
    decreases rs, 0
  {
    if rs == [] {
      EmptyMeans(d, expand);
    } else {
      hide InResolved, Evaluate, SetsMean, Selects;
      assert AllBlocksNeeded(rs).Keys == BlocksNeeded(rs[0]).Keys + AllBlocksNeeded(rs[1..]).Keys;
      EvaluateMeans(rs[0], blocks, d, expand);
      EvaluateAndMeans(rs[1..], blocks, d, expand);
      AndStep(rs, Evaluate(rs[0], blocks, expand).value, EvaluateAnd(rs[1..], blocks, expand).value, d, expand);
    }
  }

  ghost predicate ListsMean(lists: Option<seq<seq<nat>>>, rs: seq<Resolved>, d: Dictionary, expand: Expand) {
    && (lists.None? ==> forall x :: AnyResolved(rs, d, expand, x))
    && (lists.Some? ==>
          forall x :: AnyResolved(rs, d, expand, x) <==> exists k :: 0 <= k < |lists.value| && x in lists.value[k])
  }

  lemma EmptyMeans(d: Dictionary, expand: Expand)
    ensures SetsMean(Some([]), [], d, expand) && ListsMean(Some([]), [], d, expand)
  {
  }

  lemma OrStep(rs: seq<Resolved>, sel: Selection, rest: Option<seq<seq<nat>>>, d: Dictionary, expand: Expand)
    requires rs != [] && Selects(sel, rs[0], d, expand)
    requires ListsMean(rest, rs[1..], d, expand)
    ensures sel.SelAll? || rest.None? ==> ListsMean(None, rs, d, expand)
    ensures sel.Ids? && rest.Some? ==> ListsMean(Some([sel.ids] + rest.value), rs, d, expand)
  {
    forall x ensures AnyResolved(rs, d, expand, x) <==>
                       InResolved(rs[0], d, expand, x) || AnyResolved(rs[1..], d, expand, x) {
      AllResolvedCons(rs, d, expand, x);
    }
    hide InResolved, AnyResolved;
    if sel.Ids? && rest.Some? {
      var lists := [sel.ids] + rest.value;
      forall x ensures AnyResolved(rs, d, expand, x) <==> exists k :: 0 <= k < |lists| && x in lists[k] {
        InListsCons(sel.ids, rest.value, x);
        assert x in sel.ids <==> InResolved(rs[0], d, expand, x);
      }
    }
  }

  lemma InListsCons(first: seq<nat>, rest: seq<seq<nat>>, x: nat)
    ensures (exists k :: 0 <= k < |[first] + rest| && x in ([first] + rest)[k]) <==>
              x in first || exists k :: 0 <= k < |rest| && x in rest[k]
  {
    var lists := [first] + rest;
    if x in first {
      assert x in lists[0];
    }
    if k :| 0 <= k < |rest| && x in rest[k] {
      assert x in lists[k + 1];
    }
  }

  lemma {:induction false} EvaluateOrMeans(rs: seq<Resolved>, blocks: Blocks, d: Dictionary, expand: Expand)
    requires BlocksOk(blocks, d) && AllBlocksNeeded(rs).Keys <= blocks.Keys
    ensures EvaluateOr(rs, blocks, expand).Ok? && ListsMean(EvaluateOr(rs, blocks, expand).value, rs, d, expand)
    decreases rs, 0
  {
    if rs == [] {
      EmptyMeans(d, expand);
    } else {
      hide InResolved, Evaluate, ListsMean, Selects;
      assert AllBlocksNeeded(rs).Keys == BlocksNeeded(rs[0]).Keys + AllBlocksNeeded(rs[1..]).Keys;
      EvaluateMeans(rs[0], blocks, d, expand);
      EvaluateOrMeans(rs[1..], blocks, d, expand);
      OrStep(rs, Evaluate(rs[0], blocks, expand).value, EvaluateOr(rs[1..], blocks, expand).value, d, expand);
    }
  }

  /**
   The whole pipeline on one query: resolving, pruning and evaluating succeed, and the selection
   holds every id of the query's exact meaning; it holds no other id when nothing was dropped.
   */
  lemma SelectionSound(q: Query, d: Dictionary, strategy: Strategy, blocks: Blocks, expand: Expand)
    requires DictionaryOk(d) && BlocksOk(blocks, d)
    requires var r := Resolve(q, d.idSpace, strategy, d.lookup);
             r.Ok? ==> BlocksNeeded(r.value).Keys <= blocks.Keys
    ensures var r := Resolve(q, d.idSpace, strategy, d.lookup);
            && r.Ok? && Evaluate(r.value, blocks, expand).Ok?
            && (match Evaluate(r.value, blocks, expand).value
                case SelAll =>
                  NothingDropped(q, d.idSpace, strategy, d.lookup) && ExpandsAround(expand) ==>
                    forall x: nat :: x < d.idSpace ==> InExact(q, d, expand, x)
                case Ids(ids) =>
                  && StrictlySorted(IdLess, ids)
                  && (forall x :: InExact(q, d, expand, x) ==> x in ids)
                  && (NothingDropped(q, d.idSpace, strategy, d.lookup) && ExpandsAround(expand) ==>
                        forall x :: x in ids && x < d.idSpace ==> InExact(q, d, expand, x)))
  {
    hide DictionaryOk, Resolve, InExact, InResolved, BlocksNeeded, ExpandsAround, NothingDropped, Evaluate, BlocksOk;
    ResolveSound(q, d, strategy, expand, 0);
    var r := Resolve(q, d.idSpace, strategy, d.lookup).value;
    EvaluateMeans(r, blocks, d, expand);
    forall x | InExact(q, d, expand, x) ensures InResolved(r, d, expand, x) {
      ResolveSound(q, d, strategy, expand, x);
    }
    if NothingDropped(q, d.idSpace, strategy, d.lookup) && ExpandsAround(expand) {
      forall x: nat | x < d.idSpace && InResolved(r, d, expand, x) ensures InExact(q, d, expand, x) {
        ResolveExact(q, d, strategy, expand, x);
      }
    }
  }

  // ---------------------------------------------------------------------------------------------
  // The grams fetched up front are all the dictionary is asked for

  function GramsOf(q: Query): set<Gram>
    decreases q, 0
  {
    match q
    case All => {}
    case Gram(g) => {g}
    case And(subs) => AllGramsOf(subs)
    case Or(subs) => AllGramsOf(subs)
  }

  function AllGramsOf(qs: seq<Query>): set<Gram>
    decreases qs, 0
  {
    if qs == [] then {} else AllGramsOf(qs[..|qs| - 1]) + GramsOf(qs[|qs| - 1])
  }

  ghost function Size(q: Query): nat
    decreases q, 0
  {
    match q
    case And(subs) => 1 + TotalSize(subs)
    case Or(subs) => 1 + TotalSize(subs)
    case _ => 1
  }

  ghost function TotalSize(qs: seq<Query>): nat
    decreases qs, 0
  {
    if qs == [] then 0 else TotalSize(qs[..|qs| - 1]) + Size(qs[|qs| - 1])
  }

  lemma {:induction false} StackSums(a: seq<Query>, b: seq<Query>)
    ensures TotalSize(a + b) == TotalSize(a) + TotalSize(b)
    ensures AllGramsOf(a + b) == AllGramsOf(a) + AllGramsOf(b)
  {
    hide GramsOf, Size;
    if b == [] {
      assert a + b == a;
    } else {
      StackSums(a, b[..|b| - 1]);
      assert (a + b)[..|a + b| - 1] == a + b[..|b| - 1];
    }
  }

  /** `collect_query_grams`: an explicit stack, then sort and dedup. */
  method CollectQueryGrams(queries: seq<Query>) returns (grams: seq<Gram>)
    ensures StrictlySorted(LexLess, grams)
    ensures forall g :: g in grams <==> g in AllGramsOf(queries)
  {
    hide LexLess;
    grams := [];
    var stack := queries;
    while stack != []
      invariant forall g :: g in grams || g in AllGramsOf(stack) <==> g in AllGramsOf(queries)
      decreases TotalSize(stack)
    {
      var query, rest := stack[|stack| - 1], stack[..|stack| - 1];
      assert TotalSize(stack) == TotalSize(rest) + Size(query);
      match query {
        case All =>
          stack := rest;
        case Gram(g) =>
          grams := grams + [g];
          stack := rest;
        case And(subs) =>
          StackSums(rest, subs);
          assert Size(query) == 1 + TotalSize(subs);
          stack := rest + subs;
        case Or(subs) =>
          StackSums(rest, subs);
          assert Size(query) == 1 + TotalSize(subs);
          stack := rest + subs;
      }
    }
    LexTotal();
    SortDedupCorrect(LexLess, grams);
    grams := SortDedup(LexLess, grams);
  }

  lemma {:induction false} AllGramsHas(qs: seq<Query>, k: nat)
    requires k < |qs|
    ensures GramsOf(qs[k]) <= AllGramsOf(qs)
  {
    if k < |qs| - 1 {
      AllGramsHas(qs[..|qs| - 1], k);
    }
  }

  /** Resolution consults the dictionary on those grams only. */
  lemma {:induction false} ResolveUsesOnly(q: Query, idSpace: nat, strategy: Strategy, a: Lookup, b: Lookup)
    requires forall g :: g in GramsOf(q) ==> a(g) == b(g)
    ensures Resolve(q, idSpace, strategy, a) == Resolve(q, idSpace, strategy, b)
    decreases q, 1
  {
    hide ResolveGram, PruneAnd;
    match q
    case Gram(g) => ResolveGramUses(g, idSpace, a, b);
    case And(subs) =>
      forall k | 0 <= k < |subs| ensures Resolve(subs[k], idSpace, strategy, a) == Resolve(subs[k], idSpace, strategy, b) {
        AllGramsHas(subs, k);
        ResolveUsesOnly(subs[k], idSpace, strategy, a, b);
      }
      ChildrenUse(subs, idSpace, strategy, a, b);
    case Or(subs) =>
      forall k | 0 <= k < |subs| ensures Resolve(subs[k], idSpace, strategy, a) == Resolve(subs[k], idSpace, strategy, b) {
        AllGramsHas(subs, k);
        ResolveUsesOnly(subs[k], idSpace, strategy, a, b);
      }
      ChildrenUse(subs, idSpace, strategy, a, b);
    case _ =>
  }

  lemma ResolveGramUses(g: Gram, idSpace: nat, a: Lookup, b: Lookup)
    requires a(g) == b(g)
    ensures ResolveGram(g, idSpace, a) == ResolveGram(g, idSpace, b)
  {
  }

  lemma {:induction false} ChildrenUse(subs: seq<Query>, idSpace: nat, strategy: Strategy, a: Lookup, b: Lookup)
    requires forall k :: 0 <= k < |subs| ==> Resolve(subs[k], idSpace, strategy, a) == Resolve(subs[k], idSpace, strategy, b)
    ensures ResolveAnd(subs, idSpace, strategy, a) == ResolveAnd(subs, idSpace, strategy, b)
    ensures ResolveOr(subs, idSpace, strategy, a) == ResolveOr(subs, idSpace, strategy, b)
  {
    hide Resolve;
    if subs != [] {
      assert forall k :: 0 <= k < |subs[1..]| ==> subs[1..][k] == subs[k + 1];
      ChildrenUse(subs[1..], idSpace, strategy, a, b);
    }
  }

  // ---------------------------------------------------------------------------------------------
  // Selected ids stay inside the id space

  predicate DocsBelow(r: Resolved, n: nat)
    decreases r
  {
    match r
    case RDoc(id) => id < n
    case RAnd(children) => forall k :: 0 <= k < |children| ==> DocsBelow(children[k], n)
    case ROr(children) => forall k :: 0 <= k < |children| ==> DocsBelow(children[k], n)
    case _ => true
  }

  predicate AllDocsBelow(rs: seq<Resolved>, n: nat) {
    forall r :: r in rs ==> DocsBelow(r, n)
  }

  lemma AndOfDocsBelow(rs: seq<Resolved>, n: nat)
    requires AllDocsBelow(rs, n) && rs != []
    ensures DocsBelow(AndOf(rs), n)
  {
    assert rs[0] in rs;
    assert forall k :: 0 <= k < |rs| ==> rs[k] in rs;
  }

  lemma PruneDocsBelow(children: seq<Resolved>, strategy: Strategy, n: nat)
    requires AllDocsBelow(children, n)
    ensures DocsBelow(PruneAnd(children, strategy), n)
  {
    hide DocsBelow, SortByCount;
    var grams, others := Filter(children, IsGram), Filter(children, NotGram);
    if HasDoc(children) {
      var k :| 0 <= k < |children| && children[k].RDoc?;
      assert children[k] in others;
      AndOfDocsBelow(others, n);
    } else {
      var limit := MaxGramsPerAnd(strategy);
      var kept := if |grams| > limit then SortByCount(grams)[..limit] else grams;
      assert forall r :: r in kept ==> r in grams;
      if kept + others == [] {
        assert DocsBelow(RAll, n) by { RAllDocsBelow(n); }
      } else {
        AndOfDocsBelow(kept + others, n);
      }
    }
  }

  lemma RAllDocsBelow(n: nat)
    ensures DocsBelow(RAll, n)
  {
  }

  /** An inlined singleton id outside the id space is an error, never a silent miss. */
  lemma {:induction false} ResolveDocsBelow(q: Query, n: nat, strategy: Strategy, lookup: Lookup)
    ensures var r := Resolve(q, n, strategy, lookup); r.Ok? ==> DocsBelow(r.value, n)
    decreases q, 0
  {
    hide PruneAnd;
    match q
    case And(subs) =>
      ResolveChildrenBelow(subs, n, strategy, lookup);
      var c := ResolveAnd(subs, n, strategy, lookup);
      if c.Ok? && c.value.Some? {
        PruneDocsBelow(c.value.value, strategy, n);
      }
    case Or(subs) =>
      ResolveChildrenBelow(subs, n, strategy, lookup);
      var c := ResolveOr(subs, n, strategy, lookup);
      if c.Ok? && c.value.Some? {
        assert forall k :: 0 <= k < |c.value.value| ==> c.value.value[k] in c.value.value;
      }
    case _ =>
  }

  lemma {:induction false} ResolveChildrenBelow(subs: seq<Query>, n: nat, strategy: Strategy, lookup: Lookup)
    ensures var c := ResolveAnd(subs, n, strategy, lookup); c.Ok? && c.value.Some? ==> AllDocsBelow(c.value.value, n)
    ensures var c := ResolveOr(subs, n, strategy, lookup); c.Ok? && c.value.Some? ==> AllDocsBelow(c.value.value, n)
    decreases subs, 0
  {
    hide Resolve, DocsBelow;
    if subs != [] {
      ResolveDocsBelow(subs[0], n, strategy, lookup);
      ResolveChildrenBelow(subs[1..], n, strategy, lookup);
    }
  }

  ghost predicate IdsBelow(ids: seq<nat>, n: nat) {
    forall x :: x in ids ==> x < n
  }

  ghost predicate ExpandsBelow(expand: Expand, n: nat) {
    forall y: nat, x: nat :: y < n && InExpansion(expand, y, x) ==> x < n
  }

  lemma ExpandIdsBelow(ids: seq<nat>, expand: Expand, n: nat)
    requires IdsBelow(ids, n) && ExpandsBelow(expand, n)
    ensures IdsBelow(ExpandIds(ids, expand), n)
  {
    if expand.Some? {
      IdLessTotal();
      SortDedupCorrect(IdLess, FlatExpand(ids, expand.value));
      forall x | x in FlatExpand(ids, expand.value) ensures x < n {
        var k :| 0 <= k < |ids| && Within(expand.value(ids[k]), x);
        assert ids[k] in ids && InExpansion(expand, ids[k], x);
      }
    }
  }

  ghost predicate BlocksBelow(blocks: Blocks, n: nat) {
    forall o :: o in blocks ==> IdsBelow(blocks[o], n)
  }

  /** With in-range postings and expansions that stay in range, every selected id is in range. */
  lemma {:induction false} EvaluateBelow(r: Resolved, blocks: Blocks, expand: Expand, n: nat)
    requires DocsBelow(r, n) && BlocksBelow(blocks, n) && ExpandsBelow(expand, n)
    ensures var sel := Evaluate(r, blocks, expand); sel.Ok? && sel.value.Ids? ==> IdsBelow(sel.value.ids, n)
    decreases r, 0
  {
    hide ExpandIds, IntersectAll, SortByLen, ExpandsBelow;
    match r
    case RDoc(id) =>
      ExpandIdsBelow([id], expand, n);
    case RGram(offset, _, _) =>
      if offset in blocks {
        ExpandIdsBelow(blocks[offset], expand, n);
      }
    case RAnd(children) =>
      EvaluateChildrenBelow(children, blocks, expand, n);
      var sets := EvaluateAnd(children, blocks, expand);
      if sets.Ok? && sets.value.Some? && sets.value.value != [] {
        var sorted := SortByLen(sets.value.value);
        assert sorted[0] in sets.value.value;
        IntersectAllSubset(sorted[0], sorted[1..]);
      }
    case ROr(children) =>
      EvaluateChildrenBelow(children, blocks, expand, n);
      var lists := EvaluateOr(children, blocks, expand);
      if lists.Ok? && lists.value.Some? {
        IdLessTotal();
        SortDedupCorrect(IdLess, Flatten(lists.value.value));
      }
    case _ =>
  }

  lemma {:induction false} IntersectAllSubset(acc: seq<nat>, sets: seq<seq<nat>>)
    ensures forall x :: x in IntersectAll(acc, sets) ==> x in acc
    decreases |sets|
  {
    if sets != [] && Intersect(acc, sets[0]) != [] {
      IntersectAllSubset(Intersect(acc, sets[0]), sets[1..]);
    }
  }

  lemma {:induction false} EvaluateChildrenBelow(rs: seq<Resolved>, blocks: Blocks, expand: Expand, n: nat)
    requires (forall k :: 0 <= k < |rs| ==> DocsBelow(rs[k], n)) && BlocksBelow(blocks, n) && ExpandsBelow(expand, n)
    ensures var c := EvaluateAnd(rs, blocks, expand);
            c.Ok? && c.value.Some? ==> forall s :: s in c.value.value ==> IdsBelow(s, n)
    ensures var c := EvaluateOr(rs, blocks, expand);
            c.Ok? && c.value.Some? ==> forall k :: 0 <= k < |c.value.value| ==> IdsBelow(c.value.value[k], n)
    decreases rs, 0
  {
    hide Evaluate, DocsBelow, BlocksBelow, ExpandsBelow, IdsBelow;
    if rs != [] {
      EvaluateBelow(rs[0], blocks, expand, n);
      assert forall k :: 0 <= k < |rs[1..]| ==> rs[1..][k] == rs[k + 1];
      EvaluateChildrenBelow(rs[1..], blocks, expand, n);
    }
  }
}
