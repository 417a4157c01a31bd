/**
 Trimming a proof graph to the states from which acceptance is in reach (the second half of
 `build_proof_graph_with_limit` in crates/core/src/pattern.rs).
 */
module ProofTrim {
  import opened Wrappers
  import opened ProofGraphs

  ghost predicate Coaccessible(g: Graph, v: nat)
    requires |g.accepting| == |g.edges|
  {
    exists p :: AcceptingPath(g, p, v)
  }

  // ---------------------------------------------------------------------------------------------
  // Reverse edges

  ghost predicate Reversed(g: Graph, reverse: seq<seq<nat>>) {
    && |reverse| == |g.edges|
    && forall s: nat, t: nat :: t < |reverse| ==> (s in reverse[t] <==> Edge(g, s, t))
  }

  /** The reverse lists hold the edges of sources below `source`, and its first `e`. */
  ghost predicate ReversedUpTo(g: Graph, reverse: seq<seq<nat>>, source: nat, e: nat) {
    && |reverse| == |g.edges|
    && forall s: nat, t: nat :: t < |reverse| ==>
         (s in reverse[t] <==> (s < source && Edge(g, s, t)) || (s == source && EdgeBefore(g, s, t, e)))
  }

  predicate EdgeBefore(g: Graph, s: nat, t: nat, e: nat) {
    s < |g.edges| && exists m :: 0 <= m < e && m < |g.edges[s]| && g.edges[s][m] == t
  }

  method ReverseEdges(g: Graph) returns (reverse: seq<seq<nat>>)
    requires GraphOk(g)
    ensures Reversed(g, reverse)
  {
    reverse := seq(|g.edges|, i => []);
    for source := 0 to |g.edges|
      invariant ReversedUpTo(g, reverse, source, 0)
    {
      for e := 0 to |g.edges[source]|
        invariant ReversedUpTo(g, reverse, source, e)
      {
        var t := g.edges[source][e];
        AddReverse(g, reverse, source, e);
        reverse := reverse[t := reverse[t] + [source]];
      }
      SourceReversed(g, reverse, source);
    }
  }

  lemma AddReverse(g: Graph, reverse: seq<seq<nat>>, source: nat, e: nat)
    requires GraphOk(g) && ReversedUpTo(g, reverse, source, e) && source < |g.edges| && e < |g.edges[source]|
    ensures var t := g.edges[source][e];
            ReversedUpTo(g, reverse[t := reverse[t] + [source]], source, e + 1)
  {
    var t := g.edges[source][e];
    var next := reverse[t := reverse[t] + [source]];
    forall s: nat, u: nat | u < |next|
      ensures s in next[u] <==> (s < source && Edge(g, s, u)) || (s == source && EdgeBefore(g, s, u, e + 1))
    {
      assert EdgeBefore(g, source, u, e + 1) <==> EdgeBefore(g, source, u, e) || u == t;
      assert s in next[u] <==> s in reverse[u] || (u == t && s == source);
    }
  }

  lemma SourceReversed(g: Graph, reverse: seq<seq<nat>>, source: nat)
    requires source < |g.edges| && ReversedUpTo(g, reverse, source, |g.edges[source]|)
    ensures ReversedUpTo(g, reverse, source + 1, 0)
  {
    forall t: nat ensures EdgeBefore(g, source, t, |g.edges[source]|) <==> Edge(g, source, t) {
    }
  }

  // ---------------------------------------------------------------------------------------------
  // Marking

  ghost function CountUnmarked(co: seq<bool>): nat {
    if co == [] then 0 else CountUnmarked(co[..|co| - 1]) + if co[|co| - 1] then 0 else 1
  }

  lemma {:induction false} MarkCounts(co: seq<bool>, v: nat)
    requires v < |co| && !co[v]
    ensures CountUnmarked(co[v := true]) == CountUnmarked(co) - 1
  {
    var n := |co| - 1;
    if v < n {
      MarkCounts(co[..n], v);
      assert co[v := true][..n] == co[..n][v := true];
    } else {
      assert co[v := true][..n] == co[..n];
    }
  }

  /** Marked nodes reach acceptance, accepting nodes are marked, and the marks spread backwards. */
  ghost predicate Marking(g: Graph, co: seq<bool>, pending: set<nat>)
    requires GraphOk(g)
  {
    && |co| == |g.edges|
    && (forall v :: 0 <= v < |co| && co[v] ==> Coaccessible(g, v))
    && (forall v :: 0 <= v < |co| && g.accepting[v] ==> co[v])
    && (forall s: nat, t: nat :: t < |co| && co[t] && t !in pending && Edge(g, s, t) ==> co[s])
  }

  lemma PredecessorCoaccessible(g: Graph, s: nat, t: nat)
    requires GraphOk(g) && Edge(g, s, t) && Coaccessible(g, t)
    ensures Coaccessible(g, s)
  {
    var p :| AcceptingPath(g, p, t);
    StepExtends(g, s, p);
    assert AcceptingPath(g, [s] + p, s);
  }

  lemma {:induction false} MarkingComplete(g: Graph, co: seq<bool>, p: seq<nat>, v: nat)
    requires GraphOk(g) && Marking(g, co, {}) && AcceptingPath(g, p, v)
    ensures co[v]
    decreases |p|
  {
    if |p| > 1 {
      assert Edge(g, p[0], p[0 + 1]);
      TailIsWalk(g, p, 1);
      MarkingComplete(g, co, p[1..], p[1]);
    }
  }

  ghost predicate QueueMarked(co: seq<bool>, queue: seq<nat>) {
    forall i :: 0 <= i < |queue| ==> queue[i] < |co| && co[queue[i]]
  }

  lemma QueueHead(co: seq<bool>, queue: seq<nat>)
    requires QueueMarked(co, queue) && queue != []
    ensures queue[0] < |co| && co[queue[0]] && QueueMarked(co, queue[1..])
    ensures (set v | v in queue) == (set v | v in queue[1..]) + {queue[0]}
  {
    assert queue == [queue[0]] + queue[1..];
  }

  method InitialMarks(g: Graph) returns (co: seq<bool>, queue: seq<nat>)
    requires GraphOk(g)
    ensures Marking(g, co, set v | v in queue)
    ensures QueueMarked(co, queue)
  {
    co := seq(|g.edges|, i => false);
    queue := [];
    for v := 0 to |g.edges|
      invariant |co| == |g.edges|
      invariant forall k :: 0 <= k < |co| ==> (co[k] <==> k < v && g.accepting[k])
      invariant forall k :: k in queue <==> 0 <= k < v && g.accepting[k]
    {
      if g.accepting[v] {
        co := co[v := true];
        queue := queue + [v];
      }
    }
    forall v | 0 <= v < |co| && co[v] ensures Coaccessible(g, v) {
      assert AcceptingPath(g, [v], v);
    }
    assert forall i :: 0 <= i < |queue| ==> queue[i] in queue;
  }

  /** Mark the unmarked predecessors of one node. */
  method SpreadFrom(g: Graph, reverse: seq<seq<nat>>, co: seq<bool>, queue: seq<nat>, index: nat)
    returns (co': seq<bool>, queue': seq<nat>)
    requires GraphOk(g) && Reversed(g, reverse) && index < |co| && co[index]
    requires Marking(g, co, (set v | v in queue) + {index})
    requires QueueMarked(co, queue)
    ensures Marking(g, co', set v | v in queue')
    ensures QueueMarked(co', queue')
    ensures CountUnmarked(co') <= CountUnmarked(co)
    ensures CountUnmarked(co') == CountUnmarked(co) ==> |queue'| <= |queue|
  {
    co', queue' := co, queue;
    hide Coaccessible, CountUnmarked;
    for k := 0 to |reverse[index]|
      invariant |co'| == |co| && co'[index] && Marking(g, co', (set v | v in queue') + {index})
      invariant QueueMarked(co', queue')
      invariant forall m :: 0 <= m < k ==> reverse[index][m] < |co'| && co'[reverse[index][m]]
      invariant CountUnmarked(co') <= CountUnmarked(co)
      invariant CountUnmarked(co') == CountUnmarked(co) ==> |queue'| <= |queue|
    {
      var source := reverse[index][k];
      assert source in reverse[index];
      assert Edge(g, source, index);
      if !co'[source] {
        PredecessorCoaccessible(g, source, index);
        MarkCounts(co', source);
        MarkKeeps(g, co', queue', index, source);
        co' := co'[source := true];
        queue' := queue' + [source];
      }
    }
    SpreadDone(g, reverse, co', queue', index);
  }

  lemma MarkKeeps(g: Graph, co: seq<bool>, queue: seq<nat>, index: nat, source: nat)
    requires GraphOk(g) && Marking(g, co, (set v | v in queue) + {index})
    requires source < |co| && Coaccessible(g, source)
    ensures Marking(g, co[source := true], (set v | v in queue + [source]) + {index})
  {
    hide Coaccessible;
    assert forall v :: v in queue + [source] <==> v in queue || v == source;
  }

  lemma SpreadDone(g: Graph, reverse: seq<seq<nat>>, co: seq<bool>, queue: seq<nat>, index: nat)
    requires GraphOk(g) && Reversed(g, reverse) && Marking(g, co, (set v | v in queue) + {index}) && index < |co|
    requires forall m :: 0 <= m < |reverse[index]| ==> reverse[index][m] < |co| && co[reverse[index][m]]
    ensures Marking(g, co, set v | v in queue)
  {
    hide Coaccessible;
    forall s: nat | Edge(g, s, index) ensures co[s] {
      assert s in reverse[index];
    }
  }

  /** The backward search: marks exactly the nodes from which acceptance is in reach. */
  method MarkCoaccessible(g: Graph) returns (co: seq<bool>)
    requires GraphOk(g)
    ensures |co| == |g.edges| && forall v :: 0 <= v < |co| ==> (co[v] <==> Coaccessible(g, v))
  {
    var reverse := ReverseEdges(g);
    var queue: seq<nat>;
    co, queue := InitialMarks(g);
    hide CountUnmarked, Reversed, Coaccessible, Marking, QueueMarked;
    while queue != []
      invariant Marking(g, co, set v | v in queue)
      invariant QueueMarked(co, queue)
      decreases CountUnmarked(co), |queue|
    {
      var index, rest := queue[0], queue[1..];
      QueueHead(co, queue);
      co, queue := SpreadFrom(g, reverse, co, rest, index);
    }
    assert (set v | v in queue) == {};
    MarksAreExact(g, co);
  }

  lemma MarksAreExact(g: Graph, co: seq<bool>)
    requires GraphOk(g) && Marking(g, co, {})
    ensures |co| == |g.edges| && forall v :: 0 <= v < |co| ==> (co[v] <==> Coaccessible(g, v))
  {
    forall v | 0 <= v < |co| && Coaccessible(g, v) ensures co[v] {
      var p :| AcceptingPath(g, p, v);
      MarkingComplete(g, co, p, v);
    }
  }

  // ---------------------------------------------------------------------------------------------
  // Removing what was not marked

  /** The new index of a kept node: how many kept nodes come before it. */
  function Rank(co: seq<bool>, v: nat): nat
    requires v <= |co|
  {
    if v == 0 then 0 else Rank(co, v - 1) + if co[v - 1] then 1 else 0
  }

  /** The kept nodes among the first `n`, in order. */
  function Kept(co: seq<bool>, n: nat): (r: seq<nat>)
    requires n <= |co|
    ensures |r| == Rank(co, n)
    ensures forall i :: 0 <= i < |r| ==> r[i] < n && co[r[i]] && Rank(co, r[i]) == i
  {
    if n == 0 then [] else Kept(co, n - 1) + (if co[n - 1] then [n - 1] else [])
  }

  lemma {:induction false} KeptAtRank(co: seq<bool>, n: nat, v: nat)
    requires v < n <= |co| && co[v]
    ensures Rank(co, v) < Rank(co, n) && Kept(co, n)[Rank(co, v)] == v
  {
    if v < n - 1 {
      KeptAtRank(co, n - 1, v);
    }
  }

  /** Retain the marked destinations, renumbered. */
  function TrimEdges(co: seq<bool>, es: seq<nat>): (r: seq<nat>)
    requires forall e :: 0 <= e < |es| ==> es[e] < |co|
    ensures forall t :: t in r <==> exists v :: v in es && co[v] && t == Rank(co, v)
  {
    if es == [] then []
    else
      assert es == es[..|es| - 1] + [es[|es| - 1]];
      TrimEdges(co, es[..|es| - 1]) + (if co[es[|es| - 1]] then [Rank(co, es[|es| - 1])] else [])
  }

  ghost predicate Marked(g: Graph, co: seq<bool>)
    requires |g.accepting| == |g.edges|
  {
    |co| == |g.edges| && forall v :: 0 <= v < |co| ==> (co[v] <==> Coaccessible(g, v))
  }

  /** `h` is `g` restricted to the marked nodes, in order and renumbered. */
  ghost predicate TrimmedTo(g: Graph, co: seq<bool>, h: Graph)
    requires GraphOk(g) && |co| == |g.edges|
  {
    var kept := Kept(co, |co|);
    && h.start == Rank(co, g.start)
    && |h.edges| == |h.accepting| == |kept|
    && forall i :: 0 <= i < |kept| ==>
         h.accepting[i] == g.accepting[kept[i]] && h.edges[i] == TrimEdges(co, g.edges[kept[i]])
  }

  lemma KeptStep(co: seq<bool>, v: nat)
    requires v <= |co|
    ensures v == 0 ==> Kept(co, v) == []
    ensures v < |co| ==> Kept(co, v + 1) == Kept(co, v) + (if co[v] then [v] else [])
  {
  }

  method Renumber(co: seq<bool>) returns (remap: seq<nat>)
    ensures |remap| == |co| && forall k :: 0 <= k < |co| ==> remap[k] == Rank(co, k)
  {
    remap := [];
    for v := 0 to |co|
      invariant |remap| == v && forall k :: 0 <= k < v ==> remap[k] == Rank(co, k)
    {
      remap := remap + [Rank(co, v)];
    }
  }

  /** The kept nodes among the first `v`, with their retained edges. */
  ghost predicate TrimmedUpTo(g: Graph, co: seq<bool>, v: nat, accepting: seq<bool>, edges: seq<seq<nat>>)
    requires GraphOk(g) && |co| == |g.edges| && v <= |co|
  {
    var kept := Kept(co, v);
    && |accepting| == |edges| == |kept|
    && forall i :: 0 <= i < |kept| ==>
         accepting[i] == g.accepting[kept[i]] && edges[i] == TrimEdges(co, g.edges[kept[i]])
  }

  lemma TrimStep(g: Graph, co: seq<bool>, v: nat, accepting: seq<bool>, edges: seq<seq<nat>>)
    requires GraphOk(g) && |co| == |g.edges| && v < |co| && TrimmedUpTo(g, co, v, accepting, edges)
    ensures !co[v] ==> TrimmedUpTo(g, co, v + 1, accepting, edges)
    ensures co[v] ==> TrimmedUpTo(g, co, v + 1, accepting + [g.accepting[v]], edges + [TrimEdges(co, g.edges[v])])
  {
    KeptStep(co, v);
    hide Kept, Rank, TrimEdges;
  }

  /** The renumbering and the three `retain` passes. */
  method Trim(g: Graph, co: seq<bool>) returns (h: Graph)
    requires GraphOk(g) && |co| == |g.edges|
    ensures TrimmedTo(g, co, h)
  {
    var remap := Renumber(co);
    var accepting: seq<bool>, edges: seq<seq<nat>> := [], [];
    assert TrimmedUpTo(g, co, 0, accepting, edges);
    hide Kept, Rank, TrimEdges;
    for v := 0 to |co|
      invariant TrimmedUpTo(g, co, v, accepting, edges)
    {
      hide TrimmedUpTo;
      TrimStep(g, co, v, accepting, edges);
      if co[v] {
        accepting := accepting + [g.accepting[v]];
        edges := edges + [TrimEdges(co, g.edges[v])];
      }
    }
    h := Graph(remap[g.start], accepting, edges);
  }

  lemma TrimEdge(g: Graph, co: seq<bool>, h: Graph, a: nat, b: nat)
    requires GraphOk(g) && |co| == |g.edges| && TrimmedTo(g, co, h)
    requires a < |co| && co[a]
    ensures Rank(co, a) < |h.edges| && h.accepting[Rank(co, a)] == g.accepting[a]
    ensures b < |co| && co[b] && Edge(g, a, b) ==> Edge(h, Rank(co, a), Rank(co, b))
  {
    KeptAtRank(co, |co|, a);
    if b < |co| && co[b] && Edge(g, a, b) {
      assert b in g.edges[a];
    }
  }

  /** An edge of the trimmed graph comes from an edge between kept nodes. */
  lemma TrimmedEdgeReal(g: Graph, co: seq<bool>, h: Graph, i: nat, j: nat)
    requires GraphOk(g) && |co| == |g.edges| && TrimmedTo(g, co, h) && i < |h.edges| && Edge(h, i, j)
    ensures j < |h.edges| && Edge(g, Kept(co, |co|)[i], Kept(co, |co|)[j])
  {
    var kept := Kept(co, |co|);
    assert j in TrimEdges(co, g.edges[kept[i]]);
    var v :| v in g.edges[kept[i]] && co[v] && j == Rank(co, v);
    KeptAtRank(co, |co|, v);
  }

  function MapRank(co: seq<bool>, p: seq<nat>): (q: seq<nat>)
    requires forall k :: 0 <= k < |p| ==> p[k] < |co|
    ensures |q| == |p| && forall k :: 0 <= k < |p| ==> q[k] == Rank(co, p[k])
  {
    if p == [] then [] else MapRank(co, p[..|p| - 1]) + [Rank(co, p[|p| - 1])]
  }

  function MapKept(kept: seq<nat>, p: seq<nat>): (q: seq<nat>)
    requires forall k :: 0 <= k < |p| ==> p[k] < |kept|
    ensures |q| == |p| && forall k :: 0 <= k < |p| ==> q[k] == kept[p[k]]
  {
    if p == [] then [] else MapKept(kept, p[..|p| - 1]) + [kept[p[|p| - 1]]]
  }

  lemma NodesOfPathMarked(g: Graph, co: seq<bool>, p: seq<nat>, k: nat)
    requires GraphOk(g) && Marked(g, co) && k < |p| && AcceptingPath(g, p, p[0])
    ensures p[k] < |co| && co[p[k]]
  {
    TailIsWalk(g, p, k);
    assert AcceptingPath(g, p[k..], p[k]);
  }

  /** Accepting paths survive trimming, with the same length. */
  lemma PathSurvives(g: Graph, co: seq<bool>, h: Graph, p: seq<nat>, v: nat)
    requires GraphOk(g) && Marked(g, co) && TrimmedTo(g, co, h) && AcceptingPath(g, p, v)
    ensures v < |co| && exists q :: AcceptingPath(h, q, Rank(co, v)) && |q| == |p|
  {
    forall k | 0 <= k < |p| ensures p[k] < |co| && co[p[k]] {
      NodesOfPathMarked(g, co, p, k);
    }
    var q := MapRank(co, p);
    hide MapRank, TrimmedTo, Marked;
    forall k | 0 <= k < |q| - 1 ensures q[k] < |h.edges| && Edge(h, q[k], q[k + 1]) {
      assert Edge(g, p[k], p[k + 1]);
      TrimEdge(g, co, h, p[k], p[k + 1]);
    }
    TrimEdge(g, co, h, p[|p| - 1], 0);
    assert AcceptingPath(h, q, Rank(co, v));
  }

  /** Trimming adds no accepting path. */
  lemma PathComesFrom(g: Graph, co: seq<bool>, h: Graph, q: seq<nat>, i: nat)
    requires GraphOk(g) && |co| == |g.edges| && TrimmedTo(g, co, h) && AcceptingPath(h, q, i)
    ensures exists p :: AcceptingPath(g, p, Kept(co, |co|)[i]) && |p| == |q|
  {
    var kept := Kept(co, |co|);
    var p := MapKept(kept, q);
    forall k | 0 <= k < |p| - 1 ensures Edge(g, p[k], p[k + 1]) {
      assert Edge(h, q[k], q[k + 1]);
      TrimmedEdgeReal(g, co, h, q[k], q[k + 1]);
    }
    assert AcceptingPath(g, p, kept[i]);
  }

  lemma TrimmedOk(g: Graph, co: seq<bool>, h: Graph)
    requires GraphOk(g) && |co| == |g.edges| && TrimmedTo(g, co, h) && co[g.start]
    ensures GraphOk(h)
  {
    KeptAtRank(co, |co|, g.start);
    forall v, e | 0 <= v < |h.edges| && 0 <= e < |h.edges[v]| ensures h.edges[v][e] < |h.edges| {
      assert Edge(h, v, h.edges[v][e]);
      TrimmedEdgeReal(g, co, h, v, h.edges[v][e]);
    }
    forall v | 0 <= v < |h.edges| && h.accepting[v] ensures h.edges[v] == [] {
      assert h.edges[v] == TrimEdges(co, g.edges[Kept(co, |co|)[v]]);
    }
  }

  /** Every node of the trimmed graph still reaches acceptance. */
  lemma TrimmedAllReach(g: Graph, co: seq<bool>, h: Graph, i: nat)
    requires GraphOk(g) && Marked(g, co) && TrimmedTo(g, co, h) && i < |h.edges|
    ensures Coaccessible(h, i)
  {
    var v := Kept(co, |co|)[i];
    var p :| AcceptingPath(g, p, v);
    PathSurvives(g, co, h, p, v);
  }
}
