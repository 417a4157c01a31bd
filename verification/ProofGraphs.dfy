/**
 The longest accepting path of a proof graph by an iterative coloured depth-first search
 (`find_longest_accepting_path` in crates/core/src/pattern.rs).
 */
module ProofGraphs {
  import opened Wrappers

  datatype Graph = Graph(start: nat, accepting: seq<bool>, edges: seq<seq<nat>>)

  /** Exploration stops at acceptance, so accepting nodes have no edges. */
  ghost predicate GraphOk(g: Graph) {
    && |g.accepting| == |g.edges| && g.start < |g.edges|
    && (forall v, e :: 0 <= v < |g.edges| && 0 <= e < |g.edges[v]| ==> g.edges[v][e] < |g.edges|)
    && (forall v :: 0 <= v < |g.edges| && g.accepting[v] ==> g.edges[v] == [])
  }

  predicate Edge(g: Graph, a: nat, b: nat) {
    a < |g.edges| && b in g.edges[a]
  }

  ghost predicate Walk(g: Graph, p: seq<nat>) {
    && p != []
    && (forall k :: 0 <= k < |p| ==> p[k] < |g.edges|)
    && (forall k :: 0 <= k < |p| - 1 ==> Edge(g, p[k], p[k + 1]))
  }

  ghost predicate WalkTo(g: Graph, p: seq<nat>, a: nat, b: nat) {
    Walk(g, p) && p[0] == a && p[|p| - 1] == b
  }

  /** A walk that ends in an accepting node; it can meet no other accepting node on the way. */
  ghost predicate AcceptingPath(g: Graph, p: seq<nat>, v: nat)
    requires |g.accepting| == |g.edges|
  {
    Walk(g, p) && p[0] == v && g.accepting[p[|p| - 1]]
  }

  /** `n` is the exact length, in edges, of the longest accepting path from `v`. */
  ghost predicate IsLongest(g: Graph, v: nat, n: nat)
    requires |g.accepting| == |g.edges|
  {
    && (exists p :: AcceptingPath(g, p, v) && |p| == n + 1)
    && (forall p :: AcceptingPath(g, p, v) ==> |p| <= n + 1)
  }

  /** A node that neither accepts nor leads anywhere. */
  predicate Stuck(g: Graph, v: nat)
    requires |g.accepting| == |g.edges|
  {
    v < |g.edges| && !g.accepting[v] && g.edges[v] == []
  }

  ghost predicate OnCycle(g: Graph, v: nat) {
    exists p :: WalkTo(g, p, v, v) && |p| >= 2
  }

  ghost predicate Reaches(g: Graph, a: nat, b: nat) {
    exists p :: WalkTo(g, p, a, b)
  }

  // ---------------------------------------------------------------------------------------------
  // Walks

  lemma WalksJoin(g: Graph, p: seq<nat>, q: seq<nat>)
    requires Walk(g, p) && Walk(g, q) && p[|p| - 1] == q[0]
    ensures Walk(g, p + q[1..]) && |p + q[1..]| == |p| + |q| - 1
    ensures (p + q[1..])[0] == p[0] && (p + q[1..])[|p| + |q| - 2] == q[|q| - 1]
  {
    var r := p + q[1..];
    forall k | 0 <= k < |r| - 1 ensures Edge(g, r[k], r[k + 1]) {
      if k == |p| - 1 {
        assert Edge(g, q[0], q[1]);
      } else if k >= |p| {
        assert Edge(g, q[k - |p| + 1], q[k - |p| + 2]);
      }
    }
  }

  lemma TailIsWalk(g: Graph, p: seq<nat>, k: nat)
    requires Walk(g, p) && k < |p|
    ensures Walk(g, p[k..]) && p[k..][0] == p[k] && p[k..][|p| - k - 1] == p[|p| - 1]
  {
    forall m | 0 <= m < |p[k..]| - 1 ensures Edge(g, p[k..][m], p[k..][m + 1]) {
      assert Edge(g, p[k + m], p[k + m + 1]);
    }
  }

  lemma StepExtends(g: Graph, v: nat, p: seq<nat>)
    requires v < |g.edges| && Walk(g, p) && Edge(g, v, p[0])
    ensures Walk(g, [v] + p)
  {
    forall k | 0 <= k < |[v] + p| - 1 ensures Edge(g, ([v] + p)[k], ([v] + p)[k + 1]) {
      if k > 0 {
        assert Edge(g, p[k - 1], p[k]);
      }
    }
  }

  lemma AcceptingNodeIsLongest(g: Graph, v: nat)
    requires GraphOk(g) && v < |g.edges| && g.accepting[v]
    ensures IsLongest(g, v, 0)
  {
    assert AcceptingPath(g, [v], v);
    forall p | AcceptingPath(g, p, v) ensures |p| <= 1 {
      assert |p| > 1 ==> Edge(g, p[0], p[0 + 1]);
    }
  }

  /** One more than the largest child distance. */
  function MaxChild(distances: seq<nat>, children: seq<nat>): nat
    requires forall e :: 0 <= e < |children| ==> children[e] < |distances|
  {
    if children == [] then 0
    else
      var front := MaxChild(distances, children[..|children| - 1]);
      var last := distances[children[|children| - 1]] + 1;
      if last > front then last else front
  }

  lemma OneChild(distances: seq<nat>, children: seq<nat>)
    requires forall e :: 0 <= e < |children| ==> children[e] < |distances|
    ensures |children| == 1 ==> MaxChild(distances, children) == distances[children[0]] + 1
  {
    if |children| == 1 {
      assert children[..0] == [];
    }
  }

  lemma {:induction false} MaxChildIsMax(distances: seq<nat>, children: seq<nat>)
    requires forall e :: 0 <= e < |children| ==> children[e] < |distances|
    ensures forall e :: 0 <= e < |children| ==> distances[children[e]] + 1 <= MaxChild(distances, children)
    ensures children != [] ==> exists e :: 0 <= e < |children| && distances[children[e]] + 1 == MaxChild(distances, children)
  {
    if children != [] {
      MaxChildIsMax(distances, children[..|children| - 1]);
      if MaxChild(distances, children) != distances[children[|children| - 1]] + 1 {
        OneChild(distances, children);
        var e :| 0 <= e < |children| - 1 && distances[children[e]] + 1 == MaxChild(distances, children[..|children| - 1]);
        assert distances[children[e]] + 1 == MaxChild(distances, children);
      }
    }
  }

  lemma PathThroughChild(g: Graph, v: nat, p: seq<nat>, c: nat)
    requires GraphOk(g) && v < |g.edges| && c in g.edges[v] && AcceptingPath(g, p, c)
    ensures AcceptingPath(g, [v] + p, v)
  {
    StepExtends(g, v, p);
  }

  lemma PathLeavesByChild(g: Graph, v: nat, p: seq<nat>)
    requires GraphOk(g) && v < |g.edges| && !g.accepting[v] && AcceptingPath(g, p, v)
    ensures |p| > 1 && p[1] in g.edges[v] && AcceptingPath(g, p[1..], p[1])
  {
    assert Edge(g, p[0], p[0 + 1]);
    TailIsWalk(g, p, 1);
  }

  lemma LongestFromChildren(g: Graph, v: nat, distances: seq<nat>)
    requires GraphOk(g) && v < |g.edges| && !g.accepting[v] && g.edges[v] != [] && |distances| == |g.edges|
    requires forall e :: 0 <= e < |g.edges[v]| ==> IsLongest(g, g.edges[v][e], distances[g.edges[v][e]])
    ensures IsLongest(g, v, MaxChild(distances, g.edges[v]))
  {
    hide AcceptingPath;
    var children := g.edges[v];
    var n := MaxChild(distances, children);
    MaxChildIsMax(distances, children);
    hide MaxChild;
    var e :| 0 <= e < |children| && distances[children[e]] + 1 == n;
    var p :| AcceptingPath(g, p, children[e]) && |p| == n;
    PathThroughChild(g, v, p, children[e]);
    forall q | AcceptingPath(g, q, v) ensures |q| <= n + 1 {
      PathLeavesByChild(g, v, q);
      var f :| 0 <= f < |children| && children[f] == q[1];
      assert IsLongest(g, children[f], distances[children[f]]);
    }
  }

  /** A cycle on the way to acceptance makes accepting paths arbitrarily long. */
  lemma {:induction false} PumpCycle(g: Graph, v: nat, n: nat) returns (p: seq<nat>)
    requires GraphOk(g) && OnCycle(g, v) && exists q :: AcceptingPath(g, q, v)
    ensures AcceptingPath(g, p, v) && |p| > n
  {
    var c :| WalkTo(g, c, v, v) && |c| >= 2;
    if n == 0 {
      p :| AcceptingPath(g, p, v);
    } else {
      var q := PumpCycle(g, v, n - 1);
      WalksJoin(g, c, q);
      p := c + q[1..];
    }
  }

  // ---------------------------------------------------------------------------------------------
  // The coloured search

  const WHITE := 0
  const GRAY := 1
  const BLACK := 2

  datatype Search = Search(colors: seq<nat>, distances: seq<nat>, stack: seq<(nat, nat)>)

  ghost predicate Sized(g: Graph, s: Search) {
    && |s.colors| == |s.distances| == |g.edges|
    && (forall k :: 0 <= k < |s.stack| ==> s.stack[k].0 < |g.edges| && s.stack[k].1 <= |g.edges[s.stack[k].0]|)
  }

  /** The gray nodes are exactly the nodes on the stack. */
  ghost predicate GrayOnStack(g: Graph, s: Search)
    requires Sized(g, s)
  {
    && (forall k :: 0 <= k < |s.stack| ==> s.colors[s.stack[k].0] == GRAY)
    && (forall v :: 0 <= v < |s.colors| && s.colors[v] == GRAY ==> exists k :: 0 <= k < |s.stack| && s.stack[k].0 == v)
    && (forall k, m :: 0 <= k < m < |s.stack| ==> s.stack[k].0 != s.stack[m].0)
  }

  predicate Link(g: Graph, a: (nat, nat), b: (nat, nat)) {
    a.0 < |g.edges| && 0 < a.1 <= |g.edges[a.0]| && g.edges[a.0][a.1 - 1] == b.0
  }

  /** Each stack node was entered by the edge its parent took last. */
  ghost predicate StackIsWalk(g: Graph, s: Search) {
    forall k :: 0 <= k < |s.stack| - 1 ==> Link(g, s.stack[k], s.stack[k + 1])
  }

  /** The first `n` edges of `v` lead to finished nodes. */
  ghost predicate DoneUpTo(g: Graph, colors: seq<nat>, v: nat, n: int) {
    v < |g.edges| && forall e :: 0 <= e < n && e < |g.edges[v]| && g.edges[v][e] < |colors| ==> colors[g.edges[v][e]] == BLACK
  }

  /** How many of a stack node's edges are finished. */
  function Taken(s: Search, k: nat): int
    requires k < |s.stack|
  {
    var n: int := s.stack[k].1;
    if k == |s.stack| - 1 then n else n - 1
  }

  /** Edges already taken lead to finished nodes, apart from the one being explored. */
  ghost predicate TakenAreBlack(g: Graph, s: Search) {
    forall k :: 0 <= k < |s.stack| ==>
      DoneUpTo(g, s.colors, s.stack[k].0, Taken(s, k))
  }

  /** Finished nodes carry their exact longest distance. */
  ghost predicate BlackIsExact(g: Graph, s: Search)
    requires GraphOk(g) && Sized(g, s)
  {
    forall v :: 0 <= v < |s.colors| && s.colors[v] == BLACK ==> IsLongest(g, v, s.distances[v])
  }

  ghost predicate SearchInv(g: Graph, s: Search)
    requires GraphOk(g)
  {
    && Sized(g, s) && GrayOnStack(g, s) && StackIsWalk(g, s) && TakenAreBlack(g, s) && BlackIsExact(g, s)
    && (forall v :: 0 <= v < |s.colors| ==> s.colors[v] == WHITE || s.colors[v] == GRAY || s.colors[v] == BLACK)
    && (if s.stack == [] then s.colors[g.start] == BLACK else s.stack[0].0 == g.start)
  }

  lemma {:induction false} StackWalk(g: Graph, s: Search, a: nat, b: nat) returns (p: seq<nat>)
    requires GraphOk(g) && Sized(g, s) && StackIsWalk(g, s) && a <= b < |s.stack|
    ensures WalkTo(g, p, s.stack[a].0, s.stack[b].0) && |p| == b - a + 1
    decreases b - a
  {
    if a == b {
      p := [s.stack[a].0];
    } else {
      var q := StackWalk(g, s, a + 1, b);
      assert Link(g, s.stack[a], s.stack[a + 1]);
      StepExtends(g, s.stack[a].0, q);
      p := [s.stack[a].0] + q;
    }
  }

  /** Reaching a gray node again closes a cycle through it. */
  lemma GrayClosesCycle(g: Graph, s: Search, child: nat)
    requires GraphOk(g) && Sized(g, s) && GrayOnStack(g, s) && StackIsWalk(g, s) && s.stack != []
    requires s.stack[0].0 == g.start
    requires child < |s.colors| && s.colors[child] == GRAY && Edge(g, s.stack[|s.stack| - 1].0, child)
    ensures Reaches(g, g.start, child) && OnCycle(g, child)
  {
    var m :| 0 <= m < |s.stack| && s.stack[m].0 == child;
    var p := StackWalk(g, s, m, |s.stack| - 1);
    assert WalkTo(g, [child], child, child);
    WalksJoin(g, p, [s.stack[|s.stack| - 1].0, child]);
    assert WalkTo(g, p + [child], child, child) by {
      assert [s.stack[|s.stack| - 1].0, child][1..] == [child];
    }
    var q := StackWalk(g, s, 0, m);
  }

  lemma TopIsReached(g: Graph, s: Search)
    requires GraphOk(g) && SearchInv(g, s) && s.stack != []
    ensures Reaches(g, g.start, s.stack[|s.stack| - 1].0)
  {
    var p := StackWalk(g, s, 0, |s.stack| - 1);
  }

  // The four moves of the loop keep the invariant.

  function Finish(s: Search, distance: nat): Search
    requires s.stack != [] && s.stack[|s.stack| - 1].0 < |s.colors| == |s.distances|
  {
    var v := s.stack[|s.stack| - 1].0;
    Search(s.colors[v := BLACK], s.distances[v := distance], s.stack[..|s.stack| - 1])
  }

  /** Recolouring keeps finished edges finished. */
  lemma DoneStays(g: Graph, colors: seq<nat>, colors': seq<nat>, v: nat, n: int)
    requires DoneUpTo(g, colors, v, n) && |colors'| == |colors|
    requires forall x :: 0 <= x < |colors| && colors[x] == BLACK ==> colors'[x] == BLACK
    ensures DoneUpTo(g, colors', v, n)
  {
  }

  lemma FinishGray(g: Graph, s: Search, distance: nat)
    requires Sized(g, s) && GrayOnStack(g, s) && s.stack != []
    ensures Sized(g, Finish(s, distance)) && GrayOnStack(g, Finish(s, distance))
  {
    var t := Finish(s, distance);
    forall v | 0 <= v < |t.colors| && t.colors[v] == GRAY ensures exists k :: 0 <= k < |t.stack| && t.stack[k].0 == v {
      var k :| 0 <= k < |s.stack| && s.stack[k].0 == v;
      assert t.stack[k].0 == v;
    }
  }

  lemma FinishTaken(g: Graph, s: Search, distance: nat)
    requires Sized(g, s) && StackIsWalk(g, s) && TakenAreBlack(g, s) && s.stack != []
    ensures TakenAreBlack(g, Finish(s, distance)) && StackIsWalk(g, Finish(s, distance))
  {
    var t := Finish(s, distance);
    forall k | 0 <= k < |t.stack|
      ensures DoneUpTo(g, t.colors, t.stack[k].0, Taken(t, k))
    {
      DoneStays(g, s.colors, t.colors, s.stack[k].0, Taken(s, k));
      if k == |t.stack| - 1 {
        assert Link(g, s.stack[k], s.stack[k + 1]);
      }
    }
    forall k | 0 <= k < |t.stack| - 1 ensures Link(g, t.stack[k], t.stack[k + 1]) {
      assert Link(g, s.stack[k], s.stack[k + 1]);
    }
  }

  lemma FinishExact(g: Graph, s: Search, distance: nat)
    requires GraphOk(g) && Sized(g, s) && BlackIsExact(g, s) && s.stack != []
    requires IsLongest(g, s.stack[|s.stack| - 1].0, distance)
    ensures Sized(g, Finish(s, distance)) && BlackIsExact(g, Finish(s, distance))
  {
    hide IsLongest;
  }

  lemma FinishKeeps(g: Graph, s: Search, distance: nat)
    requires GraphOk(g) && SearchInv(g, s) && s.stack != []
    requires IsLongest(g, s.stack[|s.stack| - 1].0, distance)
    ensures SearchInv(g, Finish(s, distance))
  {
    FinishGray(g, s, distance);
    FinishTaken(g, s, distance);
    FinishExact(g, s, distance);
    hide IsLongest, GrayOnStack, TakenAreBlack, StackIsWalk, BlackIsExact;
  }

  function TakeEdge(s: Search): Search
    requires s.stack != []
  {
    var top := s.stack[|s.stack| - 1];
    s.(stack := s.stack[|s.stack| - 1 := (top.0, top.1 + 1)])
  }

  lemma TakeGray(g: Graph, s: Search)
    requires Sized(g, s) && GrayOnStack(g, s) && s.stack != []
    requires s.stack[|s.stack| - 1].1 < |g.edges[s.stack[|s.stack| - 1].0]|
    ensures Sized(g, TakeEdge(s)) && GrayOnStack(g, TakeEdge(s))
  {
    var t := TakeEdge(s);
    assert forall k :: 0 <= k < |s.stack| ==> t.stack[k].0 == s.stack[k].0;
    assert |t.stack| == |s.stack| && t.colors == s.colors;
    assert Sized(g, t);
    hide TakeEdge, Sized;
    forall v | 0 <= v < |t.colors| && t.colors[v] == GRAY ensures exists k :: 0 <= k < |t.stack| && t.stack[k].0 == v {
      var k :| 0 <= k < |s.stack| && s.stack[k].0 == v;
      assert t.stack[k].0 == v;
    }
  }

  lemma TakeWalk(g: Graph, s: Search)
    requires StackIsWalk(g, s) && s.stack != []
    ensures StackIsWalk(g, TakeEdge(s))
  {
    var t := TakeEdge(s);
    forall k | 0 <= k < |t.stack| - 1 ensures Link(g, t.stack[k], t.stack[k + 1]) {
      assert Link(g, s.stack[k], s.stack[k + 1]);
    }
  }

  lemma SkipBlackTaken(g: Graph, s: Search)
    requires Sized(g, s) && TakenAreBlack(g, s) && s.stack != []
    requires var (v, e) := s.stack[|s.stack| - 1];
             e < |g.edges[v]| && g.edges[v][e] < |s.colors| && s.colors[g.edges[v][e]] == BLACK
    ensures TakenAreBlack(g, TakeEdge(s))
  {
    var t := TakeEdge(s);
    var last := |s.stack| - 1;
    assert DoneUpTo(g, s.colors, s.stack[last].0, s.stack[last].1);
    forall k | 0 <= k < |t.stack|
      ensures DoneUpTo(g, t.colors, t.stack[k].0, Taken(t, k))
    {
      if k < last {
        assert DoneUpTo(g, s.colors, s.stack[k].0, Taken(s, k));
      }
    }
  }

  lemma SkipBlackKeeps(g: Graph, s: Search)
    requires GraphOk(g) && SearchInv(g, s) && s.stack != []
    requires var (v, e) := s.stack[|s.stack| - 1]; e < |g.edges[v]| && s.colors[g.edges[v][e]] == BLACK
    ensures SearchInv(g, TakeEdge(s))
  {
    TakeGray(g, s);
    TakeWalk(g, s);
    SkipBlackTaken(g, s);
    hide IsLongest, GrayOnStack, TakenAreBlack, StackIsWalk;
  }

  function Enter(s: Search, child: nat): Search
    requires s.stack != [] && child < |s.colors|
  {
    var t := TakeEdge(s);
    Search(s.colors[child := GRAY], s.distances, t.stack + [(child, 0)])
  }

  lemma EnterGray(g: Graph, s: Search, child: nat)
    requires Sized(g, s) && GrayOnStack(g, s) && s.stack != [] && child < |s.colors| && s.colors[child] == WHITE
    requires s.stack[|s.stack| - 1].1 < |g.edges[s.stack[|s.stack| - 1].0]|
    ensures Sized(g, Enter(s, child)) && GrayOnStack(g, Enter(s, child))
  {
    var t := Enter(s, child);
    EnterNodes(s, child);
    forall k | 0 <= k < |t.stack| ensures t.stack[k].0 < |g.edges| && t.stack[k].1 <= |g.edges[t.stack[k].0]| {
    }
    forall v | 0 <= v < |t.colors| && t.colors[v] == GRAY ensures exists k :: 0 <= k < |t.stack| && t.stack[k].0 == v {
      EnterFinds(g, s, child, v);
    }
    hide Enter;
  }

  lemma EnterNodes(s: Search, child: nat)
    requires s.stack != [] && child < |s.colors|
    ensures var t := Enter(s, child);
      && |t.stack| == |s.stack| + 1 && t.stack[|s.stack|] == (child, 0)
      && forall k :: 0 <= k < |s.stack| ==> t.stack[k].0 == s.stack[k].0
  {
  }

  lemma EnterFinds(g: Graph, s: Search, child: nat, v: nat)
    requires Sized(g, s) && GrayOnStack(g, s) && s.stack != [] && child < |s.colors|
    requires v < |s.colors| && Enter(s, child).colors[v] == GRAY
    ensures exists k :: 0 <= k < |Enter(s, child).stack| && Enter(s, child).stack[k].0 == v
  {
    EnterNodes(s, child);
    var t := Enter(s, child);
    if v == child {
      assert t.stack[|s.stack|].0 == v;
    } else {
      var k :| 0 <= k < |s.stack| && s.stack[k].0 == v;
      assert t.stack[k].0 == v;
    }
  }

  lemma EnterWalk(g: Graph, s: Search, child: nat)
    requires Sized(g, s) && StackIsWalk(g, s) && s.stack != [] && child < |s.colors|
    requires var (v, e) := s.stack[|s.stack| - 1]; e < |g.edges[v]| && g.edges[v][e] == child
    ensures StackIsWalk(g, Enter(s, child))
  {
    TakeWalk(g, s);
    var u, t := TakeEdge(s), Enter(s, child);
    forall k | 0 <= k < |t.stack| - 1 ensures Link(g, t.stack[k], t.stack[k + 1]) {
      if k < |s.stack| - 1 {
        assert Link(g, u.stack[k], u.stack[k + 1]);
      }
    }
  }

  lemma EnterTaken(g: Graph, s: Search, child: nat)
    requires Sized(g, s) && TakenAreBlack(g, s) && s.stack != [] && child < |s.colors| && s.colors[child] == WHITE
    ensures TakenAreBlack(g, Enter(s, child))
  {
    var t := Enter(s, child);
    var last := |s.stack| - 1;
    forall k | 0 <= k < |t.stack|
      ensures DoneUpTo(g, t.colors, t.stack[k].0, Taken(t, k))
    {
      if k < last {
        DoneStays(g, s.colors, t.colors, s.stack[k].0, Taken(s, k));
      } else if k == last {
        DoneStays(g, s.colors, t.colors, s.stack[k].0, s.stack[k].1);
      }
    }
  }

  lemma EnterKeeps(g: Graph, s: Search, child: nat)
    requires GraphOk(g) && SearchInv(g, s) && s.stack != [] && child < |s.colors| && s.colors[child] == WHITE
    requires var (v, e) := s.stack[|s.stack| - 1]; e < |g.edges[v]| && g.edges[v][e] == child
    ensures SearchInv(g, Enter(s, child))
  {
    EnterGray(g, s, child);
    EnterWalk(g, s, child);
    EnterTaken(g, s, child);
    hide IsLongest, GrayOnStack, TakenAreBlack, StackIsWalk;
  }

  ghost function CountWhite(colors: seq<nat>): nat {
    if colors == [] then 0 else CountWhite(colors[..|colors| - 1]) + if colors[|colors| - 1] == WHITE then 1 else 0
  }

  lemma {:induction false} RecolorCounts(colors: seq<nat>, v: nat, c: nat)
    requires v < |colors| && c != WHITE
    ensures CountWhite(colors[v := c]) == CountWhite(colors) - (if colors[v] == WHITE then 1 else 0)
  {
    var n := |colors| - 1;
    if v < n {
      RecolorCounts(colors[..n], v, c);
      assert colors[v := c][..n] == colors[..n][v := c];
    } else {
      assert colors[v := c][..n] == colors[..n];
    }
  }

  /** All children of a node are finished, so its distance is known. */
  lemma DoneNodeIsExact(g: Graph, s: Search)
    requires GraphOk(g) && SearchInv(g, s) && s.stack != []
    requires var (v, e) := s.stack[|s.stack| - 1]; !g.accepting[v] && e == |g.edges[v]| && g.edges[v] != []
    ensures var v := s.stack[|s.stack| - 1].0; IsLongest(g, v, MaxChild(s.distances, g.edges[v]))
  {
    var (v, n) := s.stack[|s.stack| - 1];
    hide IsLongest;
    assert DoneUpTo(g, s.colors, v, n);
    forall e | 0 <= e < |g.edges[v]| ensures IsLongest(g, g.edges[v][e], s.distances[g.edges[v][e]]) {
      assert s.colors[g.edges[v][e]] == BLACK;
    }
    LongestFromChildren(g, v, s.distances);
  }

  function Opening(g: Graph): Search
    requires GraphOk(g)
  {
    Search(seq(|g.edges|, i requires 0 <= i => if i == g.start then GRAY else WHITE), seq(|g.edges|, i => 0), [(g.start, 0)])
  }

  lemma OpeningInv(g: Graph)
    requires GraphOk(g)
    ensures SearchInv(g, Opening(g))
  {
    var s := Opening(g);
    assert s.stack[0].0 == g.start;
  }

  /**
   `find_longest_accepting_path`: the exact longest distance when no cycle and no stuck node is in
   reach of the start, and `None` with a reachable culprit otherwise.
   */
  method FindLongestAcceptingPath(g: Graph) returns (r: Option<nat>)
    requires GraphOk(g)
    ensures r.Some? ==> IsLongest(g, g.start, r.value)
    ensures r.None? ==> exists v: nat :: Reaches(g, g.start, v) && (Stuck(g, v) || OnCycle(g, v))
  {
    var s := Opening(g);
    OpeningInv(g);
    hide GrayOnStack, StackIsWalk, TakenAreBlack, BlackIsExact, Reaches, OnCycle, IsLongest, Finish, Enter, TakeEdge;
    while s.stack != []
      invariant SearchInv(g, s)
      decreases CountWhite(s.colors), |s.stack|, if s.stack == [] then 0 else |g.edges[s.stack[|s.stack| - 1].0]| - s.stack[|s.stack| - 1].1
    {
      ghost var before := s;
      var (node, edge) := s.stack[|s.stack| - 1];
      if g.accepting[node] {
        AcceptingNodeIsLongest(g, node);
        FinishKeeps(g, s, 0);
        FinishMeasure(g, s, 0);
        s := Finish(s, 0);
      } else if edge < |g.edges[node]| {
        var child := g.edges[node][edge];
        if s.colors[child] == WHITE {
          EnterKeeps(g, s, child);
          EnterMeasure(g, s, child);
          s := Enter(s, child);
        } else if s.colors[child] == GRAY {
          GrayClosesCycle(g, s, child);
          return None;
        } else {
          SkipBlackKeeps(g, s);
          TakeMeasure(s);
          s := TakeEdge(s);
        }
      } else if g.edges[node] == [] {
        TopIsReached(g, s);
        assert Stuck(g, node);
        return None;
      } else {
        var distance := MaxChild(s.distances, g.edges[node]);
        DoneNodeIsExact(g, s);
        FinishKeeps(g, s, distance);
        FinishMeasure(g, s, distance);
        s := Finish(s, distance);
      }
    }
    assert IsLongest(g, g.start, s.distances[g.start]) by { StartIsExact(g, s); }
    return Some(s.distances[g.start]);
  }

  lemma StartIsExact(g: Graph, s: Search)
    requires GraphOk(g) && SearchInv(g, s) && s.stack == []
    ensures IsLongest(g, g.start, s.distances[g.start])
  {
  }

  lemma FinishMeasure(g: Graph, s: Search, distance: nat)
    requires GraphOk(g) && SearchInv(g, s) && s.stack != []
    ensures CountWhite(Finish(s, distance).colors) == CountWhite(s.colors)
    ensures |Finish(s, distance).stack| == |s.stack| - 1
  {
    RecolorCounts(s.colors, s.stack[|s.stack| - 1].0, BLACK);
  }

  lemma EnterMeasure(g: Graph, s: Search, child: nat)
    requires GraphOk(g) && SearchInv(g, s) && s.stack != [] && child < |s.colors| && s.colors[child] == WHITE
    ensures CountWhite(Enter(s, child).colors) < CountWhite(s.colors)
  {
    RecolorCounts(s.colors, child, GRAY);
  }

  lemma TakeMeasure(s: Search)
    requires s.stack != []
    ensures var t := TakeEdge(s);
            && t.colors == s.colors && |t.stack| == |s.stack|
            && t.stack[|t.stack| - 1] == (s.stack[|s.stack| - 1].0, s.stack[|s.stack| - 1].1 + 1)
  {
  }
}
