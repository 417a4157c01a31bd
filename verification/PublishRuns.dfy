/**
 What an indexer achieves over a whole run (`update_index` and `collect_garbage` in
 crates/index/src/segment.rs): the winner's list becomes the root, the loser changes nothing, and what
 the winner replaced goes away.
 */
module PublishRuns {
  import opened Publish

  // ---------------------------------------------------------------------------------------------
  // The list a build arrives at, told by its own steps

  /** The segments to publish, and every meta that was or would have been part of a list on the way. */
  datatype Ledger = Ledger(plan: Segments, replaced: set<(SegId, set<nat>)>)

  /** A build starts from the loaded segments, or from none when it rebuilds or found no usable root. */
  function Opening(root: Root, rebuild: bool): Ledger {
    if root.Loaded? then Ledger(if rebuild then map[] else root.segments, set s | s in root.segments :: (s, root.segments[s]))
    else Ledger(map[], {})
  }

  /** New segments come in without tombstones, tombstones replace a dead set, dropped segments go. */
  function Book(l: Ledger, a: Action): Ledger {
    match a
    case Adopt(s) => Ledger(l.plan[s := {}], l.replaced + {(s, {})})
    case PutDead(s, dead) => Ledger(l.plan[s := dead], l.replaced + {(s, dead)})
    case DropSegment(s) => Ledger(l.plan - {s}, l.replaced)
    case _ => l
  }

  function Books(l: Ledger, steps: seq<Step>, i: nat): Ledger
    decreases |steps|
  {
    if steps == [] then l
    else Books(if steps[0].run == i then Book(l, steps[0].action) else l, steps[1..], i)
  }

  /** Run `i` neither swaps nor stops. */
  predicate StillBuilding(steps: seq<Step>, i: nat) {
    forall k :: 0 <= k < |steps| && steps[k].run == i ==> steps[k].action != Swap && steps[k].action != Stop
  }

  function LedgerOf(b: Indexer): Ledger
    requires b.Building?
  {
    Ledger(b.plan, b.before)
  }

  lemma BuildStep(w: World, i: nat, step: Step)
    requires i < |w.runs| && w.runs[i].Building? && Enabled(w, step.run, step.action)
    requires step.run == i ==> step.action != Swap && step.action != Stop
    ensures var v := Apply(w, step.run, step.action);
      && |v.runs| == |w.runs| && v.runs[i].Building? && v.runs[i].snapshot == w.runs[i].snapshot
      && LedgerOf(v.runs[i]) == (if step.run == i then Book(LedgerOf(w.runs[i]), step.action) else LedgerOf(w.runs[i]))
      && (step != Step(i, TakeInventory) ==> v.runs[i].inventory == w.runs[i].inventory)
  {
  }

  /** Whatever the others do meanwhile, a build's list is the one its own steps make. */
  lemma {:induction false} BuildIs(w: World, i: nat, steps: seq<Step>)
    requires i < |w.runs| && w.runs[i].Building? && Legal(w, steps) && StillBuilding(steps, i)
    ensures var v := Execute(w, steps);
      && |v.runs| == |w.runs| && v.runs[i].Building? && v.runs[i].snapshot == w.runs[i].snapshot
      && LedgerOf(v.runs[i]) == Books(LedgerOf(w.runs[i]), steps, i)
      && (Step(i, TakeInventory) !in steps ==> v.runs[i].inventory == w.runs[i].inventory)
    decreases |steps|
  {
    if steps != [] {
      assert steps == [steps[0]] + steps[1..];
      BuildStep(w, i, steps[0]);
      hide Apply, Enabled;
      BuildIs(Apply(w, steps[0].run, steps[0].action), i, steps[1..]);
    }
  }

  /** The swap went through: the root is the list, and what the list replaced is up for deletion. */
  ghost predicate Won(u: World, i: nat, books: Ledger)
    requires i < |u.runs|
  {
    && u.root == Loaded(books.plan) && u.runs[i].Collecting?
    && forall n :: Replaces(books.replaced, n) && !Names(books.plan, n) ==> n in u.runs[i].pending && n in u.retired
  }

  /** The swap was lost: nothing changed but the run itself. */
  ghost predicate Lost(v: World, u: World, i: nat) {
    u == v.(runs := u.runs) && i < |u.runs| && u.runs[i] == Idle
  }

  /**
   A whole run: if the root an indexer loaded is still the root when it swaps, the root now names exactly
   the segments of its list, and everything its list replaced is up for deletion; if the root is another,
   the swap changes neither the root nor the store.
   */
  lemma SwapDecides(w: World, i: nat, rebuild: bool, steps: seq<Step>)
    requires i < |w.runs| && w.runs[i].Idle?
    requires Legal(Apply(w, i, Begin(rebuild)), steps) && StillBuilding(steps, i)
    ensures var v := Execute(Apply(w, i, Begin(rebuild)), steps);
      && Enabled(v, i, Swap)
      && var u, books := Apply(v, i, Swap), Books(Opening(w.root, rebuild), steps, i);
      && |u.runs| == |v.runs| == |w.runs| && u.store == v.store
      && (v.root == w.root ==> Won(u, i, books))
      && (v.root != w.root ==> Lost(v, u, i))
      && (v.root == w.root && Step(i, TakeInventory) !in steps ==> forall n :: n in u.runs[i].pending ==> Replaces(books.replaced, n))
  {
    var s := Apply(w, i, Begin(rebuild));
    assert LedgerOf(s.runs[i]) == Opening(w.root, rebuild) && s.runs[i].snapshot == w.root && s.runs[i].inventory == {};
    BuildIs(s, i, steps);
    hide Legal, Execute, Books, Opening, Replaces, Names;
    WinnerSwaps(Execute(s, steps), i);
  }

  lemma WinnerSwaps(v: World, i: nat)
    requires i < |v.runs| && v.runs[i].Building?
    ensures Enabled(v, i, Swap)
    ensures var u, b := Apply(v, i, Swap), v.runs[i];
      && u.store == v.store
      && (v.root == b.snapshot ==>
            && u.root == Loaded(b.plan) && u.runs[i] == Collecting(Garbage(b)) && u.retired == v.retired + Garbage(b))
      && (v.root != b.snapshot ==> u == v.(runs := u.runs) && u.runs[i] == Idle)
      && |u.runs| == |v.runs|
  {
  }

  /** Whatever the loaded root named and the new list does not is among what the list replaced. */
  lemma {:induction false} LoadedIsReplaced(l: Ledger, steps: seq<Step>, i: nat, n: Name)
    requires Replaces(l.replaced, n)
    ensures Replaces(Books(l, steps, i).replaced, n)
    decreases |steps|
  {
    if steps != [] {
      var p :| p in l.replaced && BlobOf(p.0, p.1, n);
      var next := if steps[0].run == i then Book(l, steps[0].action) else l;
      assert p in next.replaced;
      LoadedIsReplaced(next, steps[1..], i, n);
    }
  }

  lemma OpeningReplaces(root: Root, rebuild: bool, n: Name)
    requires root.Loaded? && Names(root.segments, n)
    ensures Replaces(Opening(root, rebuild).replaced, n)
  {
    assert (n.seg, root.segments[n.seg]) in Opening(root, rebuild).replaced;
  }

  /** A root that could not be read: everything that was in the store when the inventory was taken goes, unless published. */
  lemma InventoryIsSwept(w: World, i: nat, steps: seq<Step>)
    requires i < |w.runs| && Enabled(w, i, TakeInventory)
    requires Legal(Apply(w, i, TakeInventory), steps) && StillBuilding(steps, i) && Step(i, TakeInventory) !in steps
    ensures var v := Execute(Apply(w, i, TakeInventory), steps);
      && |v.runs| == |w.runs| && v.runs[i].Building?
      && (v.root == w.runs[i].snapshot ==>
            var u := Apply(v, i, Swap);
            i < |u.runs| && u.root.Loaded? && u.runs[i].Collecting? && forall n :: n in w.store && !Names(u.root.segments, n) ==> n in u.runs[i].pending)
  {
    var s := Apply(w, i, TakeInventory);
    BuildIs(s, i, steps);
    hide Legal, Execute;
    WinnerSwaps(Execute(s, steps), i);
  }

  // ---------------------------------------------------------------------------------------------
  // Collection

  /** The step writes the blob. */
  predicate Puts(a: Action, n: Name) {
    match a
    case PutPart(s, kind) => n == Part(s, kind)
    case PutDead(s, dead) => n == Dead(s, dead)
    case _ => false
  }

  /** The blob is written and not deleted afterwards. */
  ghost predicate PutLast(steps: seq<Step>, n: Name) {
    exists k :: 0 <= k < |steps| && Puts(steps[k].action, n) && NotDeleted(steps, k + 1, n)
  }

  predicate NotDeleted(steps: seq<Step>, from: nat, n: Name) {
    forall k :: from <= k < |steps| ==> steps[k].action != Delete(n)
  }

  lemma StoreStep(w: World, step: Step, n: Name)
    requires Enabled(w, step.run, step.action)
    ensures n in Apply(w, step.run, step.action).store <==> Puts(step.action, n) || (n in w.store && step.action != Delete(n))
  {
  }

  lemma PutLastStep(steps: seq<Step>, n: Name)
    requires steps != []
    ensures NotDeleted(steps, 0, n) <==> steps[0].action != Delete(n) && NotDeleted(steps[1..], 0, n)
    ensures PutLast(steps, n) <==> PutLast(steps[1..], n) || (Puts(steps[0].action, n) && NotDeleted(steps[1..], 0, n))
  {
    var rest := steps[1..];
    assert forall k :: 0 < k < |steps| ==> steps[k] == rest[k - 1];
    forall from: nat | from < |steps| ensures NotDeleted(steps, from + 1, n) <==> NotDeleted(rest, from, n) {
      assert forall k :: from <= k < |rest| ==> rest[k] == steps[k + 1];
    }
    if PutLast(rest, n) {
      var k :| 0 <= k < |rest| && Puts(rest[k].action, n) && NotDeleted(rest, k + 1, n);
      assert Puts(steps[k + 1].action, n) && NotDeleted(steps, k + 2, n);
    }
    if PutLast(steps, n) {
      var k :| 0 <= k < |steps| && Puts(steps[k].action, n) && NotDeleted(steps, k + 1, n);
      if k > 0 {
        assert Puts(rest[k - 1].action, n) && NotDeleted(rest, k, n);
      }
    }
  }

  /** A blob is in the store at the end when it was there and never deleted, or was written last. */
  lemma {:induction false} StoreIs(w: World, steps: seq<Step>, n: Name)
    requires Legal(w, steps)
    ensures n in Execute(w, steps).store <==> (n in w.store && NotDeleted(steps, 0, n)) || PutLast(steps, n)
    decreases |steps|
  {
    if steps != [] {
      StoreStep(w, steps[0], n);
      PutLastStep(steps, n);
      StoreIs(Apply(w, steps[0].run, steps[0].action), steps[1..], n);
      hide Apply, Enabled, PutLast, NotDeleted, Puts;
    }
  }

  lemma CollectStep(w: World, i: nat, step: Step)
    requires i < |w.runs| && w.runs[i].Collecting? && Enabled(w, step.run, step.action) && step != Step(i, Stop)
    ensures var v := Apply(w, step.run, step.action);
      && |v.runs| == |w.runs| && v.runs[i].Collecting? && v.runs[i].pending <= w.runs[i].pending
      && forall n :: n in w.runs[i].pending && n !in v.runs[i].pending ==> step == Step(i, Delete(n))
  {
  }

  /** What leaves a collector's list was deleted by it. */
  lemma {:induction false} PendingWasDeleted(w: World, i: nat, steps: seq<Step>, n: Name)
    requires i < |w.runs| && w.runs[i].Collecting? && Legal(w, steps) && Step(i, Stop) !in steps
    requires n in w.runs[i].pending
    ensures var v := Execute(w, steps);
      |v.runs| == |w.runs| && v.runs[i].Collecting? && (n !in v.runs[i].pending ==> Step(i, Delete(n)) in steps)
    decreases |steps|
  {
    if steps != [] {
      assert steps == [steps[0]] + steps[1..];
      CollectStep(w, i, steps[0]);
      var next := Apply(w, steps[0].run, steps[0].action);
      hide Apply, Enabled;
      if n in next.runs[i].pending {
        PendingWasDeleted(next, i, steps[1..], n);
      } else {
        StaysCollecting(next, i, steps[1..]);
      }
    }
  }

  lemma {:induction false} StaysCollecting(w: World, i: nat, steps: seq<Step>)
    requires i < |w.runs| && w.runs[i].Collecting? && Legal(w, steps) && Step(i, Stop) !in steps
    ensures var v := Execute(w, steps); |v.runs| == |w.runs| && v.runs[i].Collecting?
    decreases |steps|
  {
    if steps != [] {
      assert steps == [steps[0]] + steps[1..];
      CollectStep(w, i, steps[0]);
      hide Apply, Enabled;
      StaysCollecting(Apply(w, steps[0].run, steps[0].action), i, steps[1..]);
    }
  }

  /**
   Once a winner's list of deletions is empty, a blob it was told to delete is in the store exactly when
   some indexer wrote it again after the last deletion; no root names it.
   */
  lemma CollectedIsGone(w: World, i: nat, steps: seq<Step>, n: Name)
    requires Inv(w) && i < |w.runs| && w.runs[i].Collecting? && n in w.runs[i].pending
    requires Legal(w, steps) && Step(i, Stop) !in steps
    requires var v := Execute(w, steps); i < |v.runs| && v.runs[i] == Collecting({})
    ensures var v := Execute(w, steps);
      && (n in v.store <==> PutLast(steps, n))
      && v.root.Loaded? && !Names(v.root.segments, n)
  {
    PendingWasDeleted(w, i, steps, n);
    assert RunOk(w, i);
    RetiredForever(w, steps, n);
    hide Legal, Execute, Inv, RunOk;
    StoreIs(w, steps, n);
    var k :| 0 <= k < |steps| && steps[k] == Step(i, Delete(n));
    assert !NotDeleted(steps, 0, n);
  }

  /** Whoever writes a blob that is up for deletion has already lost: its snapshot is not the root. */
  lemma LateWriterLost(w: World, j: nat, a: Action, n: Name)
    requires Inv(w) && Enabled(w, j, a) && Puts(a, n) && n in w.retired
    ensures w.runs[j].Building? && w.runs[j].snapshot != w.root
  {
    assert RunOk(w, j);
    hide RunsApart, RootReadable, Backed;
    assert Gone(w.root.segments, n);
  }

  /**
   It can happen: run 1 starts from the oldest root; run 0 publishes the dead set {7} and then {7, 8},
   and deletes the first; run 1 then writes {7} again and cannot publish it.
   */
  lemma OrphanExample() returns (w: World, steps: seq<Step>)
    ensures Init(w) && Legal(w, steps)
    ensures var v := Execute(w, steps);
      && Dead(1, {7}) in v.store && Dead(1, {7}) in v.retired && |v.runs| == 2 && v.runs[0] == Collecting({})
  {
    w := World(Loaded(OneSegment({})), {Part(1, Terms), Part(1, Postings), Part(1, Docs)}, {1}, {}, [Idle, Idle]);
    StartIsInit(w);
    hide *;
    var b := OpeningOf({});
    DoBegin(w, 1, {});
    var v := w.(runs := w.runs[1 := b]);
    var mid, first := PublishSeven(v, b);
    var last, second := PublishMore(mid, b);
    steps := JoinRuns(v, first, mid, second, last);
    steps := Prepend(w, Step(1, Begin(false)), v, steps, last);
  }

  lemma StartIsInit(w: World)
    requires w == World(Loaded(OneSegment({})), {Part(1, Terms), Part(1, Postings), Part(1, Docs)}, {1}, {}, [Idle, Idle])
    ensures Init(w)
  {
    forall n | Names(OneSegment({}), n) ensures n in w.store {
      assert n.Part? && (n.kind.Terms? || n.kind.Postings? || n.kind.Docs?);
    }
  }

  function OneSegment(dead: set<nat>): Segments { map[1 := dead] }

  /** The build of a run that loaded the one segment. */
  function OpeningOf(dead: set<nat>): Indexer {
    Building(Loaded(OneSegment(dead)), OneSegment(dead), {(1, dead)}, {}, {}, {})
  }

  /** The same build with a larger dead set written. */
  function Tombstoning(dead: set<nat>, more: set<nat>): Indexer {
    Building(Loaded(OneSegment(dead)), OneSegment(more), {(1, dead), (1, more)}, {}, {}, {Dead(1, more)})
  }

  lemma DoBegin(w: World, i: nat, dead: set<nat>)
    requires i < |w.runs| && w.runs[i].Idle? && w.root == Loaded(OneSegment(dead))
    ensures Enabled(w, i, Begin(false)) && Apply(w, i, Begin(false)) == w.(runs := w.runs[i := OpeningOf(dead)])
  {
    var m := OneSegment(dead);
    var metas := set s | s in m :: (s, m[s]);
    assert 1 in m && (1, m[1]) in metas;
    assert metas == {(1, dead)};
  }

  lemma DoTombstone(w: World, i: nat, dead: set<nat>, more: set<nat>)
    requires i < |w.runs| && w.runs[i] == OpeningOf(dead) && dead < more
    ensures Enabled(w, i, PutDead(1, more))
    ensures Apply(w, i, PutDead(1, more)) == w.(store := w.store + {Dead(1, more)}, runs := w.runs[i := Tombstoning(dead, more)])
  {
    assert OneSegment(dead)[1 := more] == OneSegment(more) && {(1, dead)} + {(1, more)} == {(1, dead), (1, more)};
    assert {} + {Dead(1, more)} == {Dead(1, more)};
  }

  lemma DoSwap(w: World, i: nat, dead: set<nat>, more: set<nat>)
    requires i < |w.runs| && w.runs[i] == Tombstoning(dead, more) && w.root == Loaded(OneSegment(dead)) && dead < more
    ensures var g := if dead == {} then {} else {Dead(1, dead)};
      && Enabled(w, i, Swap)
      && Apply(w, i, Swap) == w.(root := Loaded(OneSegment(more)), retired := w.retired + g, runs := w.runs[i := Collecting(g)])
  {
    var b, g := w.runs[i], if dead == {} then {} else {Dead(1, dead)};
    forall n ensures n in Garbage(b) <==> n in g {
      if n in g {
        assert (1, dead) in b.before && BlobOf(1, dead, n);
      }
    }
    assert Garbage(b) == g;
  }

  lemma DoStop(w: World, i: nat)
    requires i < |w.runs| && w.runs[i].Collecting?
    ensures Enabled(w, i, Stop) && Apply(w, i, Stop) == w.(runs := w.runs[i := Idle])
  {
  }

  lemma DoDelete(w: World, i: nat, n: Name)
    requires i < |w.runs| && w.runs[i] == Collecting({n})
    ensures Enabled(w, i, Delete(n)) && Apply(w, i, Delete(n)) == w.(store := w.store - {n}, runs := w.runs[i := Collecting({})])
  {
    assert {n} - {n} == {};
  }

  /** Run 0 publishes the dead set {7}. */
  lemma PublishSeven(v: World, b: Indexer) returns (mid: World, steps: seq<Step>)
    requires |v.runs| == 2 && v.runs[0] == Idle && v.root == Loaded(OneSegment({})) && v.runs[1] == b
    ensures Legal(v, steps) && Execute(v, steps) == mid
    ensures |mid.runs| == 2 && mid.runs[0] == Idle && mid.runs[1] == b && mid.root == Loaded(OneSegment({7}))
  {
    hide *;
    var v1 := v.(runs := v.runs[0 := OpeningOf({})]);
    var v2 := v1.(store := v1.store + {Dead(1, {7})}, runs := v1.runs[0 := Tombstoning({}, {7})]);
    var v3 := v2.(root := Loaded(OneSegment({7})), retired := v2.retired + {}, runs := v2.runs[0 := Collecting({})]);
    mid := v3.(runs := v3.runs[0 := Idle]);
    NothingLeft(mid);
    DoStop(v3, 0);
    steps := Prepend(v3, Step(0, Stop), mid, [], mid);
    DoSwap(v2, 0, {}, {7});
    steps := Prepend(v2, Step(0, Swap), v3, steps, mid);
    DoTombstone(v1, 0, {}, {7});
    steps := Prepend(v1, Step(0, PutDead(1, {7})), v2, steps, mid);
    DoBegin(v, 0, {});
    steps := Prepend(v, Step(0, Begin(false)), v1, steps, mid);
  }

  /** Run 0 publishes {7, 8} and deletes {7}; run 1 writes it again. */
  lemma PublishMore(v: World, b: Indexer) returns (last: World, steps: seq<Step>)
    requires |v.runs| == 2 && v.runs[0] == Idle && v.root == Loaded(OneSegment({7})) && v.runs[1] == b == OpeningOf({})
    ensures Legal(v, steps) && Execute(v, steps) == last
    ensures Dead(1, {7}) in last.store && Dead(1, {7}) in last.retired && |last.runs| == 2 && last.runs[0] == Collecting({})
  {
    hide *;
    var d7 := Dead(1, {7});
    assert {7} < {7, 8} by { assert 8 in {7, 8} && 8 !in {7}; }
    var v1 := v.(runs := v.runs[0 := OpeningOf({7})]);
    var v2 := v1.(store := v1.store + {Dead(1, {7, 8})}, runs := v1.runs[0 := Tombstoning({7}, {7, 8})]);
    var v3 := v2.(root := Loaded(OneSegment({7, 8})), retired := v2.retired + {d7}, runs := v2.runs[0 := Collecting({d7})]);
    var v4 := v3.(store := v3.store - {d7}, runs := v3.runs[0 := Collecting({})]);
    last := v4.(store := v4.store + {d7}, runs := v4.runs[1 := Tombstoning({}, {7})]);
    NothingLeft(last);
    DoTombstone(v4, 1, {}, {7});
    steps := Prepend(v4, Step(1, PutDead(1, {7})), last, [], last);
    DoDelete(v3, 0, d7);
    steps := Prepend(v3, Step(0, Delete(d7)), v4, steps, last);
    DoSwap(v2, 0, {7}, {7, 8});
    steps := Prepend(v2, Step(0, Swap), v3, steps, last);
    DoTombstone(v1, 0, {7}, {7, 8});
    steps := Prepend(v1, Step(0, PutDead(1, {7, 8})), v2, steps, last);
    DoBegin(v, 0, {7});
    steps := Prepend(v, Step(0, Begin(false)), v1, steps, last);
  }

  lemma NothingLeft(w: World)
    ensures Legal(w, []) && Execute(w, []) == w
  {
  }

  lemma {:induction false} JoinRuns(v: World, first: seq<Step>, mid: World, second: seq<Step>, last: World) returns (all: seq<Step>)
    requires Legal(v, first) && Execute(v, first) == mid && Legal(mid, second) && Execute(mid, second) == last
    ensures Legal(v, all) && Execute(v, all) == last
    decreases |first|
  {
    if first == [] {
      all := second;
    } else {
      var next := Apply(v, first[0].run, first[0].action);
      all := JoinRuns(next, first[1..], mid, second, last);
      hide Apply, Enabled;
      all := Prepend(v, first[0], next, all, last);
    }
  }

  lemma Prepend(w: World, step: Step, next: World, steps: seq<Step>, last: World) returns (all: seq<Step>)
    requires Enabled(w, step.run, step.action) && Apply(w, step.run, step.action) == next
    requires Legal(next, steps) && Execute(next, steps) == last
    ensures Legal(w, all) && Execute(w, all) == last
  {
    all := [step] + steps;
    assert all[1..] == steps;
  }
}
