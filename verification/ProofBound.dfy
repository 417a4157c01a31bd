/**
 The proof bound over words: the trimmed graph's longest path is the longest first-accepting word,
 and the witness search it licenses (`find_proof` and `find_witness` in crates/core/src/pattern.rs).
 */
module ProofBound {
  import opened Wrappers
  import opened Slices
  import opened ProofGraphs
  import opened ProofTrim
  import opened ProofDfa

  /** The fully explored automaton as a graph over discovery indices. */
  function GraphOf(x: Explored): Graph {
    Graph(0, x.accepting, x.edges)
  }

  ghost predicate FullyExplored(d: Dfa, x: Explored) {
    ExploredUpTo(d, x, |x.states|)
  }

  lemma ExploredGraphOk(d: Dfa, x: Explored)
    requires FullyExplored(d, x)
    ensures GraphOk(GraphOf(x))
  {
    hide Leads, Recorded;
    forall v, e | 0 <= v < |x.edges| && 0 <= e < |x.edges[v]| ensures x.edges[v][e] < |x.edges| {
      assert NodeDone(d, x, v);
    }
    forall v | 0 <= v < |x.edges| && x.accepting[v] ensures x.edges[v] == [] {
      assert NodeDone(d, x, v);
    }
  }

  /** A live transition of a non-accepting node is an edge. */
  lemma StepIsEdge(d: Dfa, x: Explored, k: nat, b: Byte)
    requires DfaOk(d) && FullyExplored(d, x) && k < |x.states| && !d.accepts(x.states[k])
    requires Live(d, d.step(x.states[k], b))
    ensures var t := d.step(x.states[k], b); t in x.indices && Edge(GraphOf(x), k, x.indices[t])
  {
    StartIndex(d, x);
    assert Represented(d, b);
    var r :| 0 <= r < |d.reps| && SameClass(d, b, d.reps[r]);
    var t := d.step(x.states[k], b);
    assert t == d.step(x.states[k], d.reps[r]);
    DoneRecords(d, x, k, r);
    hide FullyExplored, DfaOk;
  }

  lemma DoneRecords(d: Dfa, x: Explored, k: nat, r: nat)
    requires FullyExplored(d, x) && k < |x.states| == |x.edges| && !d.accepts(x.states[k]) && r < |d.reps|
    ensures Recorded(d, x, k, d.reps[r])
  {
    StartIndex(d, x);
    hide Discovered, Recorded, EdgesReal;
    assert NodeDone(d, x, k);
  }

  lemma EdgeIsStep(d: Dfa, x: Explored, k: nat, j: nat) returns (b: Byte)
    requires FullyExplored(d, x) && Edge(GraphOf(x), k, j)
    ensures j < |x.states| && k < |x.states| && !d.accepts(x.states[k])
    ensures d.step(x.states[k], b) == x.states[j] && Live(d, x.states[j])
  {
    assert NodeDone(d, x, k);
    var e :| 0 <= e < |x.edges[k]| && x.edges[k][e] == j;
    assert Leads(d, x.states[k], x.states[j]);
    b :| d.step(x.states[k], b) == x.states[j];
  }

  lemma AcceptingIs(d: Dfa, x: Explored, k: nat)
    requires FullyExplored(d, x) && k < |x.states|
    ensures |x.accepting| == |x.states| == |x.edges| && x.accepting[k] == d.accepts(x.states[k])
  {
    assert NodeDone(d, x, k);
  }

  lemma IndexOf(d: Dfa, x: Explored, t: nat)
    requires FullyExplored(d, x) && t in x.indices
    ensures x.indices[t] < |x.states| && x.states[x.indices[t]] == t
  {
  }

  /** Every first-accepting word traces an accepting path, one edge a byte. */
  lemma {:induction false} WordHasPath(d: Dfa, x: Explored, k: nat, w: seq<Byte>) returns (p: seq<nat>)
    requires DfaOk(d) && FullyExplored(d, x) && k < |x.states| && FirstAccept(d, x.states[k], w)
    ensures |x.accepting| == |x.edges| && AcceptingPath(GraphOf(x), p, k) && |p| == |w| + 1
    decreases |w|
  {
    hide FullyExplored, DfaOk;
    AcceptingIs(d, x, k);
    if w == [] {
      p := [k];
    } else {
      var t := d.step(x.states[k], w[0]);
      StepIsEdge(d, x, k, w[0]);
      IndexOf(d, x, t);
      var q := WordHasPath(d, x, x.indices[t], w[1..]);
      StepExtends(GraphOf(x), k, q);
      p := [k] + q;
    }
  }

  /** Every accepting path spells a first-accepting word. */
  lemma {:induction false} PathHasWord(d: Dfa, x: Explored, k: nat, p: seq<nat>) returns (w: seq<Byte>)
    requires FullyExplored(d, x) && |x.accepting| == |x.edges| && k < |x.states|
    requires AcceptingPath(GraphOf(x), p, k)
    ensures FirstAccept(d, x.states[k], w) && |p| == |w| + 1
    decreases |p|
  {
    hide FullyExplored;
    AcceptingIs(d, x, k);
    if |p| == 1 {
      w := [];
    } else {
      assert Edge(GraphOf(x), p[0], p[0 + 1]);
      var b := EdgeIsStep(d, x, k, p[1]);
      TailIsWalk(GraphOf(x), p, 1);
      var v := PathHasWord(d, x, p[1], p[1..]);
      w := [b] + v;
      assert w[1..] == v;
    }
  }

  // ---------------------------------------------------------------------------------------------
  // The bound

  ghost predicate HasWitness(d: Dfa) {
    exists w :: FirstAccept(d, d.start, w)
  }

  /** `n` is the length of the longest first-accepting word. */
  ghost predicate IsBound(d: Dfa, n: nat) {
    && (exists w :: FirstAccept(d, d.start, w) && |w| == n)
    && (forall w :: FirstAccept(d, d.start, w) ==> |w| <= n)
  }

  ghost predicate Unbounded(d: Dfa) {
    forall n: nat :: HasLongerThan(d, n)
  }

  ghost predicate HasLongerThan(d: Dfa, n: nat) {
    exists w :: FirstAccept(d, d.start, w) && |w| > n
  }

  ghost predicate Quits(d: Dfa) {
    exists w :: HitsQuit(d, d.start, w)
  }

  lemma StartIndex(d: Dfa, x: Explored)
    requires FullyExplored(d, x)
    ensures |x.states| == |x.edges| == |x.accepting| && x.states != [] && x.states[0] == d.start
  {
  }

  lemma LongestIsBound(d: Dfa, x: Explored, co: seq<bool>, h: Graph, n: nat)
    requires DfaOk(d) && FullyExplored(d, x) && GraphOk(GraphOf(x)) && Marked(GraphOf(x), co) && co[0]
    requires TrimmedTo(GraphOf(x), co, h) && |h.accepting| == |h.edges| && IsLongest(h, h.start, n)
    ensures IsBound(d, n)
  {
    StartIndex(d, x);
    var g := GraphOf(x);
    StartMarked(g, co);
    StartRank(g, co, h);
    KeptAtRank(co, |co|, 0);
    hide FullyExplored, Marked, TrimmedTo, FirstAccept, GraphOk, AcceptingPath, DfaOk, Kept, Rank;
    var q :| AcceptingPath(h, q, h.start) && |q| == n + 1;
    StartRank(g, co, h);
    PathComesFrom(g, co, h, q, h.start);
    var p :| AcceptingPath(g, p, 0) && |p| == |q|;
    var w := PathHasWord(d, x, 0, p);
    forall v | FirstAccept(d, d.start, v) ensures |v| <= n {
      var r := WordHasPath(d, x, 0, v);
      PathSurvives(g, co, h, r, 0);
      var u :| AcceptingPath(h, u, Rank(co, 0)) && |u| == |r|;
    }
  }

  lemma StartMarked(g: Graph, co: seq<bool>)
    requires |g.accepting| == |g.edges| && Marked(g, co) && GraphOk(g)
    ensures |co| == |g.edges| > g.start
  {
  }

  lemma StartRank(g: Graph, co: seq<bool>, h: Graph)
    requires GraphOk(g) && |co| == |g.edges| && g.start == 0 && TrimmedTo(g, co, h) && co[0]
    ensures h.start == Rank(co, 0) && h.start < |Kept(co, |co|)| && Kept(co, |co|)[h.start] == 0
  {
    KeptAtRank(co, |co|, 0);
  }

  /** A cycle in the trimmed graph makes the words unbounded. */
  lemma CycleIsUnbounded(d: Dfa, x: Explored, co: seq<bool>, h: Graph, v: nat)
    requires DfaOk(d) && FullyExplored(d, x) && GraphOk(GraphOf(x)) && Marked(GraphOf(x), co) && co[0]
    requires TrimmedTo(GraphOf(x), co, h) && GraphOk(h) && v < |h.edges|
    requires Reaches(h, h.start, v) && OnCycle(h, v)
    ensures Unbounded(d)
  {
    StartIndex(d, x);
    var g := GraphOf(x);
    hide FullyExplored, Marked, TrimmedTo, FirstAccept, DfaOk;
    StartMarked(g, co);
    StartRank(g, co, h);
    TrimmedAllReach(g, co, h, v);
    forall n: nat ensures HasLongerThan(d, n) {
      var q := LongPath(h, v, n + 1);
      PathComesFrom(g, co, h, q, h.start);
      var p :| AcceptingPath(g, p, 0) && |p| == |q|;
      var w := PathHasWord(d, x, 0, p);
      assert FirstAccept(d, d.start, w);
    }
  }

  lemma LongPath(h: Graph, v: nat, n: nat) returns (q: seq<nat>)
    requires GraphOk(h) && Reaches(h, h.start, v) && OnCycle(h, v) && Coaccessible(h, v)
    ensures AcceptingPath(h, q, h.start) && |q| > n
  {
    var u := PumpCycle(h, v, n);
    var r :| WalkTo(h, r, h.start, v);
    WalksJoin(h, r, u);
    q := r + u[1..];
  }

  lemma NoStuck(g: Graph, co: seq<bool>, h: Graph, v: nat)
    requires GraphOk(g) && Marked(g, co) && TrimmedTo(g, co, h) && GraphOk(h) && v < |h.edges|
    ensures !Stuck(h, v)
  {
    TrimmedAllReach(g, co, h, v);
    var p :| AcceptingPath(h, p, v);
    assert |p| > 1 ==> Edge(h, p[0], p[0 + 1]);
  }

  lemma NotCoaccessible(d: Dfa, x: Explored)
    requires DfaOk(d) && FullyExplored(d, x) && |x.accepting| == |x.edges| && !Coaccessible(GraphOf(x), 0)
    ensures !HasWitness(d)
  {
    StartIndex(d, x);
    hide FullyExplored, FirstAccept, DfaOk;
    forall w | FirstAccept(d, d.start, w) ensures false {
      var p := WordHasPath(d, x, 0, w);
    }
  }

  /** A bound is unique, and there is none without a witness or with arbitrarily long ones. */
  lemma BoundExcludesOthers(d: Dfa, n: nat)
    requires IsBound(d, n)
    ensures HasWitness(d) && !Unbounded(d) && forall m: nat :: IsBound(d, m) ==> m == n
  {
    assert !HasLongerThan(d, n);
  }

  lemma BoundsExclude(d: Dfa)
    ensures forall n: nat :: IsBound(d, n) ==> HasWitness(d) && !Unbounded(d)
  {
    hide IsBound, HasWitness, Unbounded;
    forall n: nat | IsBound(d, n) ensures HasWitness(d) && !Unbounded(d) {
      BoundExcludesOthers(d, n);
    }
  }

  /** A complete exploration has followed every live transition, so none of them quits. */
  lemma {:induction false} ExploredNeverQuits(d: Dfa, x: Explored, k: nat, w: seq<Byte>)
    requires DfaOk(d) && FullyExplored(d, x) && k < |x.states|
    ensures !HitsQuit(d, x.states[k], w)
    decreases |w|
  {
    if w != [] && !d.accepts(x.states[k]) {
      StartIndex(d, x);
      assert Represented(d, w[0]);
      var r :| 0 <= r < |d.reps| && SameClass(d, w[0], d.reps[r]);
      DoneRecords(d, x, k, r);
      hide FullyExplored, DfaOk;
      var t := d.step(x.states[k], w[0]);
      assert t == d.step(x.states[k], d.reps[r]);
      if !d.dead(t) {
        IndexOf(d, x, t);
        ExploredNeverQuits(d, x, x.indices[t], w[1..]);
      }
    }
  }

  lemma NeverQuits(d: Dfa, x: Explored)
    requires DfaOk(d) && FullyExplored(d, x)
    ensures !Quits(d)
  {
    StartIndex(d, x);
    hide FullyExplored, DfaOk, HitsQuit;
    forall w ensures !HitsQuit(d, d.start, w) {
      ExploredNeverQuits(d, x, 0, w);
    }
  }

  /**
   `find_proof` without its memory and size limits.  It is exact: a bound comes back precisely when
   the start is live, no run quits, and the first-accepting words have a longest one.
   */
  method FindProofBound(d: Dfa) returns (r: Option<nat>)
    requires DfaOk(d)
    ensures r.Some? ==> IsBound(d, r.value)
    ensures r.Some? <==> Live(d, d.start) && !Quits(d) && exists n: nat :: IsBound(d, n)
    ensures r.None? ==> !Live(d, d.start) || Quits(d) || !HasWitness(d) || Unbounded(d)
  {
    hide IsBound, Unbounded, HasWitness;
    BoundsExclude(d);
    var explored := Explore(d);
    if explored.None? {
      return None;
    }
    var x := explored.value;
    assert FullyExplored(d, x);
    ExploredGraphOk(d, x);
    StartIndex(d, x);
    NeverQuits(d, x);
    var g := GraphOf(x);
    hide FullyExplored, ExploredUpTo, GraphOk, DfaOk, TrimmedTo, IsLongest, Coaccessible, Quits, Live;
    var co := MarkCoaccessible(g);
    if !co[0] {
      NotCoaccessible(d, x);
      return None;
    }
    var h := Trim(g, co);
    TrimmedOk(g, co, h);
    r := FindLongestAcceptingPath(h);
    if r.Some? {
      assert |h.accepting| == |h.edges| by { SizesAgree(h); }
      LongestIsBound(d, x, co, h, r.value);
    } else {
      CulpritIsCycle(g, co, h);
      ghost var v: nat :| v < |h.edges| && Reaches(h, h.start, v) && OnCycle(h, v);
      CycleIsUnbounded(d, x, co, h, v);
    }
  }

  lemma SizesAgree(h: Graph)
    requires GraphOk(h)
    ensures |h.accepting| == |h.edges|
  {
  }

  lemma CulpritIsCycle(g: Graph, co: seq<bool>, h: Graph)
    requires GraphOk(g) && Marked(g, co) && TrimmedTo(g, co, h) && GraphOk(h)
    requires exists v: nat :: Reaches(h, h.start, v) && (Stuck(h, v) || OnCycle(h, v))
    ensures exists v: nat :: v < |h.edges| && Reaches(h, h.start, v) && OnCycle(h, v)
  {
    var v: nat :| Reaches(h, h.start, v) && (Stuck(h, v) || OnCycle(h, v));
    assert v < |h.edges|;
    NoStuck(g, co, h, v);
  }

  // ---------------------------------------------------------------------------------------------
  // The witness search

  datatype Direction = Forward | Reverse

  /** The machine reads the whole region from its anchored side and ends accepting. */
  predicate AcceptsAll(d: Dfa, s: nat, region: seq<Byte>)
    decreases |region|
  {
    if region == [] then d.accepts(s)
    else Live(d, d.step(s, region[0])) && AcceptsAll(d, d.step(s, region[0]), region[1..])
  }

  function Backwards(t: seq<Byte>): (r: seq<Byte>)
    ensures |r| == |t|
  {
    if t == [] then [] else Backwards(t[1..]) + [t[0]]
  }

  /** An accepted region begins with a first-accepting word. */
  lemma {:induction false} AcceptedHasFirst(d: Dfa, s: nat, region: seq<Byte>) returns (k: nat)
    requires AcceptsAll(d, s, region)
    ensures k <= |region| && FirstAccept(d, s, region[..k])
    decreases |region|
  {
    if d.accepts(s) {
      k := 0;
    } else {
      var m := AcceptedHasFirst(d, d.step(s, region[0]), region[1..]);
      k := m + 1;
      assert region[..k][1..] == region[1..][..m];
    }
  }

  function RunState(d: Dfa, s: nat, w: seq<Byte>): nat
    decreases |w|
  {
    if w == [] then s else d.step(RunState(d, s, w[..|w| - 1]), w[|w| - 1])
  }

  /** Along a first-accepting word the run stays live and accepts only at the end. */
  lemma {:induction false} FirstAcceptAlong(d: Dfa, s: nat, w: seq<Byte>, k: nat)
    requires FirstAccept(d, s, w) && 0 < k <= |w|
    ensures Live(d, RunState(d, s, w[..k])) && (d.accepts(RunState(d, s, w[..k])) <==> k == |w|)
    decreases |w|
  {
    var t := d.step(s, w[0]);
    RunFromFirst(d, s, w[..k]);
    assert w[..k][1..] == w[1..][..k - 1];
    if k == 1 {
      assert w[..k][1..] == [];
    } else {
      FirstAcceptAlong(d, t, w[1..], k - 1);
    }
  }

  lemma {:induction false} RunFromFirst(d: Dfa, s: nat, w: seq<Byte>)
    requires w != []
    ensures RunState(d, s, w) == RunState(d, d.step(s, w[0]), w[1..])
    decreases |w|
  {
    if |w| > 1 {
      RunFromFirst(d, s, w[..|w| - 1]);
      assert w[..|w| - 1][1..] == w[1..][..|w| - 2];
    } else {
      assert RunState(d, s, w[..0]) == s;
    }
  }

  /**
   The forward loop: at most `bytes` steps, stop at a dead or quit state, return at acceptance.
   `None` is the error "did not accept within the bound".
   */
  method ScanForAcceptance(d: Dfa, bytes: nat, region: seq<Byte>) returns (r: Option<nat>)
    requires IsBound(d, bytes) && bytes > 0
    ensures AcceptsAll(d, d.start, region) ==> r.Some?
    ensures r.Some? ==> 0 < r.value <= |region| && r.value <= bytes && FirstAccept(d, d.start, region[..r.value])
  {
    ghost var accepted := AcceptsAll(d, d.start, region);
    ghost var first := 0;
    if accepted {
      first := AcceptedHasFirst(d, d.start, region);
    }
    var limit := if bytes < |region| then bytes else |region|;
    var state := d.start;
    StartNotAccepting(d, bytes);
    hide FirstAccept, AcceptsAll, IsBound, RunState;
    assert RunState(d, d.start, region[..0]) == d.start by { RunStep(d, d.start, region, 0); }
    assert OpenTo(d, region, 0) by { OpenZero(d, region); }
    for index := 0 to limit
      invariant state == RunState(d, d.start, region[..index]) && OpenTo(d, region, index)
      invariant accepted ==> index < first
    {
      RunStep(d, d.start, region, index + 1);
      if accepted {
        FirstAcceptAt(d, region, first, index + 1);
      }
      state := d.step(state, region[index]);
      if d.dead(state) || d.quit(state) {
        return None;
      }
      if d.accepts(state) {
        OpenToAccept(d, region, index + 1);
        BoundHolds(d, bytes, region[..index + 1]);
        return Some(index + 1);
      }
      OpenStep(d, region, index);
    }
    if accepted {
      BoundHolds(d, bytes, region[..first]);
    }
    return None;
  }

  lemma StartNotAccepting(d: Dfa, bytes: nat)
    requires IsBound(d, bytes) && bytes > 0
    ensures !d.accepts(d.start)
  {
    var w :| FirstAccept(d, d.start, w) && |w| == bytes;
  }

  lemma RunStep(d: Dfa, s: nat, region: seq<Byte>, k: nat)
    requires k <= |region|
    ensures k == 0 ==> RunState(d, s, region[..k]) == s
    ensures k > 0 ==> RunState(d, s, region[..k]) == d.step(RunState(d, s, region[..k - 1]), region[k - 1])
  {
    if k > 0 {
      assert region[..k][..k - 1] == region[..k - 1];
    }
  }

  lemma FirstAcceptAt(d: Dfa, region: seq<Byte>, first: nat, k: nat)
    requires first <= |region| && FirstAccept(d, d.start, region[..first]) && 0 < k <= first
    ensures var t := RunState(d, d.start, region[..k]); Live(d, t) && (d.accepts(t) <==> k == first)
  {
    FirstAcceptAlong(d, d.start, region[..first], k);
    assert region[..first][..k] == region[..k];
  }

  lemma BoundHolds(d: Dfa, bytes: nat, w: seq<Byte>)
    requires IsBound(d, bytes) && FirstAccept(d, d.start, w)
    ensures |w| <= bytes
  {
  }

  /** The first `k` bytes lead through live, non-accepting states. */
  ghost predicate OpenTo(d: Dfa, region: seq<Byte>, k: nat)
    requires k <= |region|
  {
    forall m :: 0 < m <= k ==> Live(d, RunState(d, d.start, region[..m])) && !d.accepts(RunState(d, d.start, region[..m]))
  }

  lemma OpenZero(d: Dfa, region: seq<Byte>)
    ensures OpenTo(d, region, 0)
  {
  }

  lemma OpenStep(d: Dfa, region: seq<Byte>, k: nat)
    requires k < |region| && OpenTo(d, region, k)
    requires var t := RunState(d, d.start, region[..k + 1]); Live(d, t) && !d.accepts(t)
    ensures OpenTo(d, region, k + 1)
  {
  }

  lemma OpenToAccept(d: Dfa, region: seq<Byte>, k: nat)
    requires 0 < k <= |region| && OpenTo(d, region, k - 1) && !d.accepts(d.start)
    requires var t := RunState(d, d.start, region[..k]); Live(d, t) && d.accepts(t)
    ensures FirstAccept(d, d.start, region[..k])
  {
    assert forall m :: 0 < m < k ==> region[..k][..m] == region[..m];
    assert region[..k][..k] == region[..k];
    AlongIsFirst(d, d.start, region[..k]);
  }

  lemma {:induction false} AlongIsFirst(d: Dfa, s: nat, w: seq<Byte>)
    requires w != [] && !d.accepts(s)
    requires forall m :: 0 < m <= |w| ==> Live(d, RunState(d, s, w[..m])) && (d.accepts(RunState(d, s, w[..m])) <==> m == |w|)
    ensures FirstAccept(d, s, w)
    decreases |w|
  {
    var t := d.step(s, w[0]);
    assert RunState(d, s, w[..1]) == t by { RunStep(d, s, w, 1); RunStep(d, s, w, 0); }
    if |w| > 1 {
      forall m | 0 < m <= |w[1..]|
        ensures Live(d, RunState(d, t, w[1..][..m])) && (d.accepts(RunState(d, t, w[1..][..m])) <==> m == |w[1..]|)
      {
        RunFromFirst(d, s, w[..m + 1]);
        assert w[..m + 1][1..] == w[1..][..m];
      }
      AlongIsFirst(d, t, w[1..]);
    } else {
      assert w[1..] == [];
    }
  }

  /** The bytes of a match in the order the machine reads them. */
  function Region(direction: Direction, haystack: seq<Byte>, start: nat, end: nat): (r: seq<Byte>)
    requires start <= end <= |haystack|
    ensures |r| == end - start
  {
    match direction
    case Forward => haystack[start..end]
    case Reverse => Backwards(haystack[start..end])
  }

  /** `[a, b)` is anchored to the match's fixed side, and the machine accepts it on its own. */
  predicate IsWitness(d: Dfa, direction: Direction, haystack: seq<Byte>, start: nat, end: nat, a: nat, b: nat) {
    && start <= a < b <= end <= |haystack|
    && FirstAccept(d, d.start, Region(direction, haystack, a, b))
    && match direction { case Forward => a == start case Reverse => b == end }
  }

  /**
   `find_witness` on a proven machine: for a match the machine accepts, in either direction, it
   returns a slice of the match of at most `bytes` bytes that the machine accepts on its own.
   */
  method FindWitness(d: Dfa, bytes: nat, direction: Direction, haystack: seq<Byte>, start: nat, end: nat)
    returns (r: Result<(nat, nat)>)
    requires IsBound(d, bytes) && bytes > 0
    ensures r.Ok? ==> IsWitness(d, direction, haystack, start, end, r.value.0, r.value.1)
    ensures r.Ok? ==> r.value.1 - r.value.0 <= bytes
    ensures start <= end <= |haystack| && AcceptsAll(d, d.start, Region(direction, haystack, start, end)) ==> r.Ok?
  {
    hide *;
    if start > end || end > |haystack| {
      return Err;
    }
    var region := Region(direction, haystack, start, end);
    var found := ScanForAcceptance(d, bytes, region);
    if found.None? {
      return Err;
    }
    var n := found.value;
    PrefixIsWitness(d, direction, haystack, start, end, n);
    if direction == Forward {
      return Ok((start, start + n));
    }
    return Ok((end - n, end));
  }

  lemma PrefixIsWitness(d: Dfa, direction: Direction, haystack: seq<Byte>, start: nat, end: nat, n: nat)
    requires start <= end <= |haystack| && 0 < n <= |Region(direction, haystack, start, end)|
    requires FirstAccept(d, d.start, Region(direction, haystack, start, end)[..n])
    ensures direction == Forward ==> IsWitness(d, direction, haystack, start, end, start, start + n)
    ensures direction == Reverse ==> n <= end && IsWitness(d, direction, haystack, start, end, end - n, end)
  {
    hide FirstAccept, Backwards;
    match direction
    case Forward =>
      SliceOfSlice(haystack, start, end, 0, n);
    case Reverse =>
      BackwardsPrefix(haystack[start..end], n);
      SliceOfSlice(haystack, start, end, end - start - n, end - start);
  }

  lemma {:induction false} BackwardsPrefix(t: seq<Byte>, n: nat)
    requires n <= |t|
    ensures Backwards(t)[..n] == Backwards(t[|t| - n..])
    ensures t[|t| - n..] == t[|t| - n..|t|]
  {
    if n == |t| {
      assert t[0..] == t;
    } else {
      BackwardsPrefix(t[1..], n);
      BackwardsTail(t);
      hide *;
      assert t[1..][|t| - 1 - n..] == t[|t| - n..];
    }
  }

  lemma BackwardsTail(t: seq<Byte>)
    requires t != []
    ensures Backwards(t) == Backwards(t[1..]) + [t[0]] && |Backwards(t[1..])| == |t| - 1
  {
  }
}
