/**
 From a DFA to its proof graph and back to words: breadth-first exploration cut at the first
 acceptance, trimming to co-accessible states, the longest-path bound, and the witness search that
 relies on the bound (crates/core/src/pattern.rs).
 */
module ProofDfa {
  import opened Wrappers
  import opened ProofGraphs

  /**
   A DFA with states below `size`.  `accepts` is acceptance at the end of input; `reps` holds one
   byte of every byte class.
   */
  datatype Dfa = Dfa(size: nat, start: nat, step: (nat, Byte) -> nat, dead: nat -> bool, quit: nat -> bool,
                     accepts: nat -> bool, reps: seq<Byte>)

  ghost predicate SameClass(d: Dfa, a: Byte, b: Byte) {
    forall s: nat :: d.step(s, a) == d.step(s, b)
  }

  ghost predicate Represented(d: Dfa, b: Byte) {
    exists k :: 0 <= k < |d.reps| && SameClass(d, b, d.reps[k])
  }

  ghost predicate DfaOk(d: Dfa) {
    && d.start < d.size
    && (forall s: nat, b: Byte :: s < d.size ==> d.step(s, b) < d.size)
    && (forall b: Byte :: Represented(d, b))
  }

  // ---------------------------------------------------------------------------------------------
  // Words

  predicate Live(d: Dfa, s: nat) { !d.dead(s) && !d.quit(s) }

  /** `w` leads from `s` to its first accepting state. */
  predicate FirstAccept(d: Dfa, s: nat, w: seq<Byte>)
    decreases |w|
  {
    if d.accepts(s) then w == []
    else w != [] && Live(d, d.step(s, w[0])) && FirstAccept(d, d.step(s, w[0]), w[1..])
  }

  /** Before any acceptance, `w` runs into the quit state. */
  predicate HitsQuit(d: Dfa, s: nat, w: seq<Byte>)
    decreases |w|
  {
    && w != [] && !d.accepts(s)
    && (d.quit(d.step(s, w[0])) || (!d.dead(d.step(s, w[0])) && HitsQuit(d, d.step(s, w[0]), w[1..])))
  }

  /** `w` leads from `s` to `t` through live states, none accepting before `t`. */
  predicate OpenRun(d: Dfa, s: nat, w: seq<Byte>, t: nat)
    decreases |w|
  {
    if w == [] then s == t
    else !d.accepts(s) && Live(d, d.step(s, w[0])) && OpenRun(d, d.step(s, w[0]), w[1..], t)
  }

  lemma {:induction false} OpenRunExtends(d: Dfa, s: nat, w: seq<Byte>, t: nat, b: Byte)
    requires OpenRun(d, s, w, t) && !d.accepts(t) && Live(d, d.step(t, b))
    ensures OpenRun(d, s, w + [b], d.step(t, b))
    decreases |w|
  {
    if w == [] {
      assert (w + [b])[1..] == [];
    } else {
      assert (w + [b])[1..] == w[1..] + [b];
      OpenRunExtends(d, d.step(s, w[0]), w[1..], t, b);
    }
  }

  lemma {:induction false} OpenRunQuits(d: Dfa, s: nat, w: seq<Byte>, t: nat, b: Byte)
    requires OpenRun(d, s, w, t) && !d.accepts(t) && d.quit(d.step(t, b))
    ensures HitsQuit(d, s, w + [b])
    decreases |w|
  {
    if w != [] {
      assert (w + [b])[1..] == w[1..] + [b];
      OpenRunQuits(d, d.step(s, w[0]), w[1..], t, b);
    }
  }

  // ---------------------------------------------------------------------------------------------
  // Exploration

  datatype Explored = Explored(states: seq<nat>, accepting: seq<bool>, edges: seq<seq<nat>>, indices: map<nat, nat>)

  ghost predicate Reached(d: Dfa, t: nat) {
    exists w :: OpenRun(d, d.start, w, t)
  }

  /** Discovered states are distinct, live and reachable; `indices` inverts `states`. */
  ghost predicate Discovered(d: Dfa, x: Explored) {
    && |x.states| == |x.accepting| == |x.edges| && x.states != [] && x.states[0] == d.start
    && (forall k :: 0 <= k < |x.states| ==>
          x.states[k] in x.indices && x.indices[x.states[k]] == k && x.states[k] < d.size && Reached(d, x.states[k]))
    && (forall s :: s in x.indices ==> x.indices[s] < |x.states| && x.states[x.indices[s]] == s)
  }

  /** Every edge of node `k` is a real transition to a discovered state. */
  ghost predicate EdgesReal(d: Dfa, x: Explored, k: nat)
    requires k < |x.states| == |x.edges|
  {
    forall e :: 0 <= e < |x.edges[k]| ==> x.edges[k][e] < |x.states| && Leads(d, x.states[k], x.states[x.edges[k][e]])
  }

  ghost predicate Leads(d: Dfa, s: nat, t: nat) {
    Live(d, t) && exists b: Byte :: d.step(s, b) == t
  }

  /** The transition of node `k` on byte `b` is recorded, unless it is dead; it does not quit. */
  ghost predicate Recorded(d: Dfa, x: Explored, k: nat, b: Byte)
    requires k < |x.states| == |x.edges|
  {
    var t := d.step(x.states[k], b);
    !d.quit(t) && (d.dead(t) || (t in x.indices && x.indices[t] in x.edges[k]))
  }

  /** Node `k` has been taken off the queue. */
  ghost predicate NodeDone(d: Dfa, x: Explored, k: nat)
    requires k < |x.states| == |x.edges| == |x.accepting|
  {
    && x.accepting[k] == d.accepts(x.states[k])
    && (if x.accepting[k] then x.edges[k] == []
        else EdgesReal(d, x, k) && forall r :: 0 <= r < |d.reps| ==> Recorded(d, x, k, d.reps[r]))
  }

  ghost predicate NodeNew(x: Explored, k: nat)
    requires k < |x.states| == |x.edges| == |x.accepting|
  {
    !x.accepting[k] && x.edges[k] == []
  }

  /** The first `done` nodes are finished and the rest are untouched. */
  ghost predicate ExploredUpTo(d: Dfa, x: Explored, done: nat) {
    && Discovered(d, x) && done <= |x.states|
    && (forall k :: 0 <= k < done ==> NodeDone(d, x, k))
    && (forall k :: done <= k < |x.states| ==> NodeNew(x, k))
  }

  function AddState(x: Explored, t: nat): Explored {
    Explored(x.states + [t], x.accepting + [false], x.edges + [[]], x.indices[t := |x.states|])
  }

  function AddEdge(x: Explored, k: nat, to: nat): Explored
    requires k < |x.edges|
  {
    x.(edges := x.edges[k := x.edges[k] + [to]])
  }

  /** A later exploration knows all the earlier one did about node `k`. */
  ghost predicate Grows(x: Explored, y: Explored, k: nat) {
    && |x.states| <= |y.states| && |x.edges| <= |y.edges| && k < |x.edges|
    && x.states == y.states[..|x.states|]
    && (forall s :: s in x.indices ==> s in y.indices && y.indices[s] == x.indices[s])
    && (forall t :: t in x.edges[k] ==> t in y.edges[k])
  }

  lemma RecordedStays(d: Dfa, x: Explored, y: Explored, k: nat, b: Byte)
    requires |x.states| == |x.edges| && |y.states| == |y.edges| && Grows(x, y, k)
    requires Recorded(d, x, k, b)
    ensures Recorded(d, y, k, b)
  {
    assert x.states[k] == y.states[..|x.states|][k];
  }

  /** A newly met live state joins the exploration. */
  lemma AddStateKeeps(d: Dfa, x: Explored, t: nat)
    requires Discovered(d, x) && t !in x.indices && t < d.size && Reached(d, t)
    ensures Discovered(d, AddState(x, t))
  {
    hide Reached;
    var y := AddState(x, t);
    forall k | 0 <= k < |y.states|
      ensures y.states[k] in y.indices && y.indices[y.states[k]] == k && y.states[k] < d.size && Reached(d, y.states[k])
    {
      if k < |x.states| {
        assert y.states[k] == x.states[k];
      }
    }
  }

  lemma AddStateDone(d: Dfa, x: Explored, t: nat, k: nat)
    requires Discovered(d, x) && t !in x.indices && k < |x.states|
    ensures NodeDone(d, x, k) ==> NodeDone(d, AddState(x, t), k)
    ensures NodeNew(x, k) ==> NodeNew(AddState(x, t), k)
    ensures EdgesReal(d, x, k) ==> EdgesReal(d, AddState(x, t), k)
  {
    hide Leads;
    var y := AddState(x, t);
    assert Grows(x, y, k);
    if NodeDone(d, x, k) && !x.accepting[k] {
      forall r | 0 <= r < |d.reps| ensures Recorded(d, y, k, d.reps[r]) {
        RecordedStays(d, x, y, k, d.reps[r]);
      }
    }
  }

  lemma AddEdgeDone(d: Dfa, x: Explored, at: nat, to: nat, k: nat)
    requires Discovered(d, x) && at < |x.states| && k < |x.states| && k != at
    ensures NodeDone(d, x, k) ==> NodeDone(d, AddEdge(x, at, to), k)
    ensures NodeNew(x, k) ==> NodeNew(AddEdge(x, at, to), k)
  {
    hide Leads;
    var y := AddEdge(x, at, to);
    assert y.edges[k] == x.edges[k];
    if NodeDone(d, x, k) && !x.accepting[k] {
      forall r | 0 <= r < |d.reps| ensures Recorded(d, y, k, d.reps[r]) {
        assert Recorded(d, x, k, d.reps[r]);
      }
    }
  }

  /** A live successor of a discovered, non-accepting state is reachable too. */
  lemma SuccessorReached(d: Dfa, t: nat, b: Byte)
    requires Reached(d, t) && !d.accepts(t)
    ensures Live(d, d.step(t, b)) ==> Reached(d, d.step(t, b))
    ensures d.quit(d.step(t, b)) ==> exists w :: HitsQuit(d, d.start, w)
  {
    var w :| OpenRun(d, d.start, w, t);
    if Live(d, d.step(t, b)) {
      OpenRunExtends(d, d.start, w, t, b);
    }
    if d.quit(d.step(t, b)) {
      OpenRunQuits(d, d.start, w, t, b);
    }
  }

  /** The queue holds the nodes `[lo, hi)` in order. */
  predicate QueueIs(queue: seq<nat>, lo: nat, hi: nat) {
    lo <= hi && |queue| == hi - lo && forall i :: 0 <= i < |queue| ==> queue[i] == lo + i
  }

  /** Node `at` is being expanded: its transitions on the first `r` byte classes are recorded. */
  ghost predicate Expanding(d: Dfa, x: Explored, at: nat, r: nat) {
    && Discovered(d, x) && at < |x.states| && r <= |d.reps|
    && !x.accepting[at] && !d.accepts(x.states[at])
    && EdgesReal(d, x, at)
    && (forall m :: 0 <= m < r ==> Recorded(d, x, at, d.reps[m]))
    && (forall k :: 0 <= k < at ==> NodeDone(d, x, k))
    && (forall k :: at < k < |x.states| ==> NodeNew(x, k))
  }

  /** The destinations seen so far are exactly those with an edge. */
  ghost predicate SeenRecorded(x: Explored, at: nat, seen: seq<nat>)
    requires at < |x.edges|
  {
    forall t :: t in seen ==> t in x.indices && x.indices[t] in x.edges[at]
  }

  /** A transition to a state already known, or just added, becomes an edge. */
  lemma EdgeKeeps(d: Dfa, x: Explored, at: nat, r: nat, t: nat)
    requires Expanding(d, x, at, r) && r < |d.reps| && t == d.step(x.states[at], d.reps[r])
    requires Live(d, t) && t in x.indices
    ensures Expanding(d, AddEdge(x, at, x.indices[t]), at, r + 1)
  {
    hide Reached;
    var y := AddEdge(x, at, x.indices[t]);
    assert Discovered(d, y);
    forall k | 0 <= k < |x.states| && k != at ensures (NodeDone(d, x, k) ==> NodeDone(d, y, k)) && (NodeNew(x, k) ==> NodeNew(y, k)) {
      AddEdgeDone(d, x, at, x.indices[t], k);
    }
    hide Discovered, NodeDone;
    assert y.edges[at] == x.edges[at] + [x.indices[t]];
    assert Leads(d, y.states[at], t);
    assert EdgesReal(d, y, at);
    forall m | 0 <= m < r + 1 ensures Recorded(d, y, at, d.reps[m]) {
      if m < r {
        assert Recorded(d, x, at, d.reps[m]);
      }
    }
  }

  lemma NewStateKeeps(d: Dfa, x: Explored, at: nat, r: nat, t: nat)
    requires Expanding(d, x, at, r) && t !in x.indices && t < d.size && Reached(d, t)
    ensures Expanding(d, AddState(x, t), at, r)
  {
    hide Reached;
    var y := AddState(x, t);
    AddStateKeeps(d, x, t);
    assert Grows(x, y, at);
    forall m | 0 <= m < r ensures Recorded(d, y, at, d.reps[m]) {
      RecordedStays(d, x, y, at, d.reps[m]);
    }
    forall k | 0 <= k < |x.states|
      ensures (NodeDone(d, x, k) ==> NodeDone(d, y, k)) && (NodeNew(x, k) ==> NodeNew(y, k)) && (EdgesReal(d, x, k) ==> EdgesReal(d, y, k))
    {
      AddStateDone(d, x, t, k);
    }
    hide Discovered, NodeDone, EdgesReal, Recorded;
  }

  /** A dead or already seen destination needs no edge. */
  lemma SkipKeeps(d: Dfa, x: Explored, at: nat, r: nat, seen: seq<nat>)
    requires Expanding(d, x, at, r) && r < |d.reps| && SeenRecorded(x, at, seen)
    requires var t := d.step(x.states[at], d.reps[r]); !d.quit(t) && (d.dead(t) || t in seen)
    ensures Expanding(d, x, at, r + 1)
  {
    hide Discovered, NodeDone, EdgesReal;
  }

  lemma QueueGrows(queue: seq<nat>, lo: nat, hi: nat)
    requires QueueIs(queue, lo, hi)
    ensures QueueIs(queue + [hi], lo, hi + 1)
  {
  }

  lemma SeenStays(x: Explored, at: nat, seen: seq<nat>, t: nat)
    requires at < |x.edges| && SeenRecorded(x, at, seen) && t !in x.indices
    ensures SeenRecorded(AddState(x, t), at, seen)
  {
  }

  lemma SeenGrows(x: Explored, at: nat, seen: seq<nat>, t: nat)
    requires at < |x.edges| && SeenRecorded(x, at, seen) && t in x.indices
    ensures SeenRecorded(AddEdge(x, at, x.indices[t]), at, seen + [t])
  {
  }

  lemma ExpandingStarts(d: Dfa, x: Explored, at: nat)
    requires ExploredUpTo(d, x, at) && at < |x.states| && !d.accepts(x.states[at])
    ensures Expanding(d, x, at, 0)
  {
    hide NodeDone;
    assert NodeNew(x, at);
  }

  lemma ExpandingEnds(d: Dfa, x: Explored, at: nat)
    requires Expanding(d, x, at, |d.reps|)
    ensures ExploredUpTo(d, x, at + 1)
  {
    assert NodeDone(d, x, at);
  }

  /** A live destination met for the first time from this node: index it if new, then add the edge. */
  method RecordTransition(d: Dfa, x: Explored, queue: seq<nat>, at: nat, ghost r: nat, ghost seen: seq<nat>, next: nat)
    returns (y: Explored, q: seq<nat>)
    requires Expanding(d, x, at, r) && r < |d.reps| && next == d.step(x.states[at], d.reps[r])
    requires Live(d, next) && next < d.size && Reached(d, next)
    requires SeenRecorded(x, at, seen) && QueueIs(queue, at + 1, |x.states|)
    ensures Expanding(d, y, at, r + 1) && SeenRecorded(y, at, seen + [next]) && QueueIs(q, at + 1, |y.states|)
    ensures y.states[at] == x.states[at]
  {
    y, q := x, queue;
    hide ExploredUpTo, NodeDone, NodeNew, EdgesReal, Recorded, Reached, QueueIs, SeenRecorded;
    if next !in y.indices {
      NewStateKeeps(d, y, at, r, next);
      QueueGrows(q, at + 1, |y.states|);
      SeenStays(y, at, seen, next);
      q := q + [|y.states|];
      y := AddState(y, next);
    }
    EdgeKeeps(d, y, at, r, next);
    SeenGrows(y, at, seen, next);
    y := AddEdge(y, at, y.indices[next]);
  }

  /** One turn of the breadth-first loop on a non-accepting node. */
  method ExpandNode(d: Dfa, x: Explored, queue: seq<nat>, at: nat) returns (r: Option<(Explored, seq<nat>)>)
    requires DfaOk(d) && ExploredUpTo(d, x, at) && at < |x.states| && !d.accepts(x.states[at])
    requires QueueIs(queue, at + 1, |x.states|)
    ensures r.None? ==> exists w :: HitsQuit(d, d.start, w)
    ensures r.Some? ==> ExploredUpTo(d, r.value.0, at + 1) && QueueIs(r.value.1, at + 1, |r.value.0.states|)
  {
    var y := x;
    var q: seq<nat> := queue;
    var seen: seq<nat> := [];
    ExpandingStarts(d, x, at);
    assert SeenRecorded(y, at, seen);
    hide ExploredUpTo, NodeDone, NodeNew, EdgesReal, Recorded, HitsQuit, Reached, Represented, QueueIs, SeenRecorded;
    for i := 0 to |d.reps|
      invariant Expanding(d, y, at, i) && SeenRecorded(y, at, seen) && QueueIs(q, at + 1, |y.states|)
    {
      var next := d.step(y.states[at], d.reps[i]);
      SuccessorReached(d, y.states[at], d.reps[i]);
      if d.quit(next) {
        return None;
      }
      if d.dead(next) || next in seen {
        SkipKeeps(d, y, at, i, seen);
      } else {
        y, q := RecordTransition(d, y, q, at, i, seen, next);
        seen := seen + [next];
      }
    }
    ExpandingEnds(d, y, at);
    return Some((y, q));
  }

  lemma {:induction false} DistinctBelow(xs: seq<nat>, n: nat)
    requires forall k :: 0 <= k < |xs| ==> xs[k] < n
    requires forall k, m :: 0 <= k < m < |xs| ==> xs[k] != xs[m]
    ensures |xs| <= n
  {
    assert xs == [] || xs[0] < n;
    if n == 0 {
    } else if k :| 0 <= k < |xs| && xs[k] == n - 1 {
      DistinctBelow(xs[..k] + xs[k + 1..], n - 1);
    } else {
      DistinctBelow(xs, n - 1);
    }
  }

  lemma StatesBounded(d: Dfa, x: Explored)
    requires Discovered(d, x)
    ensures |x.states| <= d.size
  {
    forall k, m | 0 <= k < m < |x.states| ensures x.states[k] != x.states[m] {
      assert x.indices[x.states[k]] == k && x.indices[x.states[m]] == m;
    }
    DistinctBelow(x.states, d.size);
  }

  lemma AcceptKeeps(d: Dfa, x: Explored, at: nat)
    requires ExploredUpTo(d, x, at) && at < |x.states| && d.accepts(x.states[at])
    ensures ExploredUpTo(d, x.(accepting := x.accepting[at := true]), at + 1)
  {
    hide Reached, Leads;
    var y := x.(accepting := x.accepting[at := true]);
    assert NodeNew(x, at);
    forall k | 0 <= k < |x.states| && k != at ensures (NodeDone(d, x, k) ==> NodeDone(d, y, k)) && (NodeNew(x, k) ==> NodeNew(y, k)) {
      if NodeDone(d, x, k) && !x.accepting[k] {
        assert forall r :: 0 <= r < |d.reps| ==> Recorded(d, x, k, d.reps[r]) ==> Recorded(d, y, k, d.reps[r]);
      }
    }
  }

  lemma ExplorationStarts(d: Dfa)
    requires DfaOk(d)
    ensures ExploredUpTo(d, Explored([d.start], [false], [[]], map[d.start := 0]), 0)
  {
    assert OpenRun(d, d.start, [], d.start);
  }

  /** The breadth-first loop of `build_proof_graph_with_limit`. */
  method Explore(d: Dfa) returns (r: Option<Explored>)
    requires DfaOk(d)
    ensures r.None? ==> !Live(d, d.start) || exists w :: HitsQuit(d, d.start, w)
    ensures r.Some? ==> Live(d, d.start) && ExploredUpTo(d, r.value, |r.value.states|)
  {
    if d.dead(d.start) || d.quit(d.start) {
      return None;
    }
    var x := Explored([d.start], [false], [[]], map[d.start := 0]);
    ExplorationStarts(d);
    var queue: seq<nat> := [0];
    ghost var done := 0;
    hide NodeDone, NodeNew, HitsQuit, Reached, Represented;
    while queue != []
      invariant ExploredUpTo(d, x, done) && QueueIs(queue, done, |x.states|)
      decreases d.size - done
    {
      StatesBounded(d, x);
      var index := queue[0];
      queue := queue[1..];
      if d.accepts(x.states[index]) {
        AcceptKeeps(d, x, index);
        x := x.(accepting := x.accepting[index := true]);
      } else {
        var expanded := ExpandNode(d, x, queue, index);
        if expanded.None? {
          return None;
        }
        x, queue := expanded.value.0, expanded.value.1;
      }
      done := done + 1;
    }
    return Some(x);
  }
}
