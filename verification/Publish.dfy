/**
 Publishing an index (`update_index`, `collect_garbage`, `meta_blobs` and the old-format sweep in
 crates/index/src/segment.rs, `put_if` in crates/core/src/store.rs) as a protocol: several indexers
 interleave, each swaps the root by compare-and-swap on its content, and deletes afterwards.
 */
module Publish {
  type SegId = nat

  datatype Kind = Terms | Postings | Docs

  /** A segment-scoped blob.  A dead set is stored under a name derived from its content. */
  datatype Name = Part(seg: SegId, kind: Kind) | Dead(seg: SegId, ids: set<nat>)

  /** The segments a root names, each with its dead sources; the empty dead set has no blob. */
  type Segments = map<SegId, set<nat>>

  datatype Root = Absent | Unreadable(bytes: nat) | Loaded(segments: Segments)

  /** A blob of the segment `(s, dead)` (`meta_blobs` without the content-addressed packs). */
  predicate BlobOf(s: SegId, dead: set<nat>, n: Name) {
    n.seg == s && (n.Dead? ==> n.ids == dead && dead != {})
  }

  predicate Names(m: Segments, n: Name) {
    n.seg in m && BlobOf(n.seg, m[n.seg], n)
  }

  predicate Replaces(before: set<(SegId, set<nat>)>, n: Name) {
    exists p :: p in before && BlobOf(p.0, p.1, n)
  }

  /**
   One `update_index` call.  `snapshot` is the root it loaded, `plan` the list it will publish,
   `before` the metas it will hand to the garbage collector, `inventory` the blobs listed before the
   build when the snapshot was unreadable, `drawn` the segment IDs it drew, `written` its own blobs.
   */
  datatype Indexer =
    | Idle
    | Building(snapshot: Root, plan: Segments, before: set<(SegId, set<nat>)>, inventory: set<Name>,
               drawn: set<SegId>, written: set<Name>)
    | Collecting(pending: set<Name>)

  /** `used` holds every segment ID ever drawn; `retired` every name a garbage collection was given. */
  datatype World = World(root: Root, store: set<Name>, used: set<SegId>, retired: set<Name>, runs: seq<Indexer>)

  function Ids(r: Root): set<SegId> {
    if r.Loaded? then r.segments.Keys else {}
  }

  // ---------------------------------------------------------------------------------------------
  // The steps

  datatype Action =
    | Begin(rebuild: bool)
    | TakeInventory
    | DrawSegment(s: SegId)
    | PutPart(s: SegId, kind: Kind)
    | Adopt(s: SegId)
    | PutDead(s: SegId, dead: set<nat>)
    | DropSegment(s: SegId)
    | Swap
    | Delete(n: Name)
    | Stop

  predicate Complete(b: Indexer, s: SegId)
    requires b.Building?
  {
    Part(s, Terms) in b.written && Part(s, Postings) in b.written && Part(s, Docs) in b.written
  }

  predicate Enabled(w: World, i: nat, a: Action) {
    && i < |w.runs|
    && var r := w.runs[i];
       match a {
         case Begin(_) => r.Idle?
         case TakeInventory => r.Building? && r.snapshot.Unreadable? && r.drawn == {}
         case DrawSegment(s) => r.Building? && s !in w.used
         case PutPart(s, _) => r.Building? && s in r.drawn
         case Adopt(s) => r.Building? && s in r.drawn && s !in r.plan && Complete(r, s) && forall p :: p in r.before ==> p.0 != s
         case PutDead(s, dead) => r.Building? && s in r.plan && r.plan[s] < dead
         case DropSegment(s) => r.Building?
         case Swap => r.Building?
         case Delete(n) => r.Collecting? && n in r.pending
         case Stop => !r.Idle?
       }
  }

  /** The root is loaded; its segments are replaced, and kept as a starting point unless rebuilding. */
  function Start(root: Root, rebuild: bool): Indexer {
    match root
    case Loaded(m) => Building(root, if rebuild then map[] else m, set s | s in m :: (s, m[s]), {}, {}, {})
    case _ => Building(root, map[], {}, {}, {}, {})
  }

  function PartBlobs(before: set<(SegId, set<nat>)>): set<Name> {
    set p, k | p in before && k in {Terms, Postings, Docs} :: Part(p.0, k)
  }

  function DeadBlobs(before: set<(SegId, set<nat>)>): set<Name> {
    set p | p in before && p.1 != {} :: Dead(p.0, p.1)
  }

  lemma ReplacedAreListed(before: set<(SegId, set<nat>)>)
    ensures forall n :: Replaces(before, n) ==> n in PartBlobs(before) + DeadBlobs(before)
  {
    forall n | Replaces(before, n) ensures n in PartBlobs(before) + DeadBlobs(before) {
      var p :| p in before && BlobOf(p.0, p.1, n);
      match n
      case Part(_, kind) =>
        assert kind.Terms? || kind.Postings? || kind.Docs?;
      case Dead(_, ids) =>
        assert n == Dead(p.0, p.1);
    }
  }

  /** The blobs of the replaced metas. */
  function ReplacedBlobs(before: set<(SegId, set<nat>)>): (r: set<Name>)
    ensures forall n :: n in r <==> Replaces(before, n)
  {
    ReplacedAreListed(before);
    PartBlobs(before) + DeadBlobs(before)
  }

  /** What the run deletes once it has published: superseded blobs, then the old inventory. */
  function Garbage(b: Indexer): (r: set<Name>)
    requires b.Building?
    ensures forall n :: n in r <==> (Replaces(b.before, n) || n in b.inventory) && !Names(b.plan, n)
  {
    set n | n in ReplacedBlobs(b.before) + b.inventory && !Names(b.plan, n)
  }

  function Apply(w: World, i: nat, a: Action): World
    requires Enabled(w, i, a)
  {
    var r := w.runs[i];
    match a
    case Begin(rebuild) => w.(runs := w.runs[i := Start(w.root, rebuild)])
    case TakeInventory => w.(runs := w.runs[i := r.(inventory := w.store)])
    case DrawSegment(s) => w.(used := w.used + {s}, runs := w.runs[i := r.(drawn := r.drawn + {s})])
    case PutPart(s, kind) =>
      w.(store := w.store + {Part(s, kind)}, runs := w.runs[i := r.(written := r.written + {Part(s, kind)})])
    case Adopt(s) =>
      w.(runs := w.runs[i := r.(plan := r.plan[s := {}], before := r.before + {(s, {})})])
    case PutDead(s, dead) =>
      w.(store := w.store + {Dead(s, dead)},
        runs := w.runs[i := r.(plan := r.plan[s := dead], before := r.before + {(s, dead)}, written := r.written + {Dead(s, dead)})])
    case DropSegment(s) => w.(runs := w.runs[i := r.(plan := r.plan - {s})])
    case Swap =>
      if w.root == r.snapshot then
        var garbage := Garbage(r);
        w.(root := Loaded(r.plan), retired := w.retired + garbage, runs := w.runs[i := Collecting(garbage)])
      else w.(runs := w.runs[i := Idle])
    case Delete(n) => w.(store := w.store - {n}, runs := w.runs[i := Collecting(r.pending - {n})])
    case Stop => w.(runs := w.runs[i := Idle])
  }

  // ---------------------------------------------------------------------------------------------
  // The invariant

  /** No later root can name a retired blob: its segment is gone, or its dead set has grown. */
  predicate Gone(m: Segments, n: Name) {
    n.seg !in m || (n.Dead? && n.ids < m[n.seg])
  }

  /** What a build in progress knows about its own plan. */
  ghost predicate PlanOk(b: Indexer, used: set<SegId>)
    requires b.Building?
  {
    && b.drawn <= used && Ids(b.snapshot) <= used
    && b.drawn !! Ids(b.snapshot)
    && (forall s :: s in b.plan ==>
          s in b.drawn || (b.snapshot.Loaded? && s in b.snapshot.segments && b.snapshot.segments[s] <= b.plan[s]))
    && (forall p :: p in b.before ==>
          (p.0 in b.drawn || p.0 in Ids(b.snapshot)) && (p.0 in b.plan ==> p.1 <= b.plan[p.0]))
    && (forall n :: n in b.inventory ==> b.snapshot.Unreadable? && n.seg in used && n.seg !in b.drawn)
  }

  /** A blob the run relies on is in the store, unless a collector has been told to delete it. */
  ghost predicate Backed(b: Indexer, store: set<Name>, retired: set<Name>)
    requires b.Building?
  {
    && (forall n :: n in b.written ==> n in store || n in retired)
    && (forall n :: Names(b.plan, n) ==> n in store || n in retired)
  }

  /** The IDs a run drew are still private to it. */
  ghost predicate Private(b: Indexer, root: Root, retired: set<Name>)
    requires b.Building?
  {
    && b.drawn !! Ids(root)
    && (root.Unreadable? ==> b.snapshot == root)
    && (forall n :: n in retired && n.seg in b.drawn ==> b.snapshot.Unreadable? && root.Loaded?)
  }

  ghost predicate RunOk(w: World, i: nat)
    requires i < |w.runs|
  {
    match w.runs[i]
    case Idle => true
    case Building(_, _, _, _, _, _) =>
      PlanOk(w.runs[i], w.used) && Backed(w.runs[i], w.store, w.retired) && Private(w.runs[i], w.root, w.retired)
    case Collecting(pending) => pending <= w.retired
  }

  /** Two builds share no drawn ID, and neither drew one the other's snapshot names. */
  ghost predicate Apart(a: Indexer, b: Indexer) {
    a.Building? && b.Building? ==> a.drawn !! b.drawn && a.drawn !! Ids(b.snapshot)
  }

  ghost predicate RunsApart(runs: seq<Indexer>) {
    forall i, j :: 0 <= i < |runs| && 0 <= j < |runs| && i != j ==> Apart(runs[i], runs[j])
  }

  ghost predicate StoreOk(w: World) {
    && (forall n :: n in w.store ==> n.seg in w.used)
    && Ids(w.root) <= w.used
    && (forall n :: n in w.retired ==> n.seg in w.used && w.root.Loaded? && Gone(w.root.segments, n))
  }

  /** Every segment-scoped blob the root names is in the store. */
  ghost predicate RootReadable(w: World) {
    w.root.Loaded? ==> forall n :: Names(w.root.segments, n) ==> n in w.store
  }

  ghost predicate Inv(w: World) {
    && StoreOk(w) && RootReadable(w) && RunsApart(w.runs)
    && forall i :: 0 <= i < |w.runs| ==> RunOk(w, i)
  }

  ghost predicate Init(w: World) {
    && w.retired == {} && RootReadable(w)
    && (forall n :: n in w.store ==> n.seg in w.used) && Ids(w.root) <= w.used
    && forall i :: 0 <= i < |w.runs| ==> w.runs[i] == Idle
  }

  lemma InitInv(w: World)
    requires Init(w)
    ensures Inv(w)
  {
  }

  // ---------------------------------------------------------------------------------------------
  // Steps inside one run

  /** A change to one run that leaves the root alone, and to the store only adds used names. */
  lemma OwnStep(w: World, i: nat, r: Indexer, v: World)
    requires Inv(w) && i < |w.runs| && v == w.(store := v.store, used := v.used, runs := w.runs[i := r])
    requires w.store <= v.store && w.used <= v.used && forall n :: n in v.store ==> n.seg in v.used
    requires RunOk(v, i)
    requires forall j :: 0 <= j < |w.runs| && j != i ==> Apart(r, w.runs[j]) && Apart(w.runs[j], r)
    ensures Inv(v)
  {
    hide Apart, PlanOk, Backed, Private, Gone;
    forall j | 0 <= j < |v.runs| ensures RunOk(v, j) {
      if j != i {
        assert RunOk(w, j);
        OtherRun(w, v, j);
      }
    }
    assert RootReadable(v);
    hide RunOk;
    forall j, k | 0 <= j < |v.runs| && 0 <= k < |v.runs| && j != k ensures Apart(v.runs[j], v.runs[k]) {
      if j != i && k != i {
        assert Apart(w.runs[j], w.runs[k]);
      }
    }
  }

  /** Another run's facts survive a growing store. */
  lemma OtherRun(w: World, v: World, j: nat)
    requires j < |w.runs| && j < |v.runs| && v.runs[j] == w.runs[j] && RunOk(w, j)
    requires v.root == w.root && v.retired == w.retired && w.store <= v.store && w.used <= v.used
    ensures RunOk(v, j)
  {
    hide Private;
  }

  /** A run that keeps its drawn IDs and snapshot stays apart from the others. */
  lemma ApartStays(runs: seq<Indexer>, i: nat, r: Indexer)
    requires RunsApart(runs) && i < |runs|
    requires r.Building? ==> runs[i].Building? && r.drawn == runs[i].drawn && r.snapshot == runs[i].snapshot
    ensures forall j :: 0 <= j < |runs| && j != i ==> Apart(r, runs[j]) && Apart(runs[j], r)
  {
    forall j | 0 <= j < |runs| && j != i ensures Apart(r, runs[j]) && Apart(runs[j], r) {
      assert Apart(runs[i], runs[j]) && Apart(runs[j], runs[i]);
    }
  }

  lemma BeginKeeps(w: World, i: nat, rebuild: bool)
    requires Inv(w) && i < |w.runs| && w.runs[i].Idle?
    ensures Inv(Apply(w, i, Begin(rebuild)))
  {
    var r := Start(w.root, rebuild);
    var v := w.(runs := w.runs[i := r]);
    assert PlanOk(r, w.used) && Private(r, w.root, w.retired);
    assert Backed(r, w.store, w.retired);
    forall j | 0 <= j < |w.runs| && j != i ensures Apart(r, w.runs[j]) && Apart(w.runs[j], r) {
      assert RunOk(w, j);
    }
    hide PlanOk, Private, Backed, Start;
    assert RunOk(v, i);
    OwnStep(w, i, r, v);
  }

  lemma InventoryKeeps(w: World, i: nat)
    requires Inv(w) && Enabled(w, i, TakeInventory)
    ensures Inv(Apply(w, i, TakeInventory))
  {
    var r := w.runs[i].(inventory := w.store);
    var v := Apply(w, i, TakeInventory);
    assert RunOk(w, i);
    assert PlanOk(r, w.used);
    hide PlanOk;
    assert RunOk(v, i);
    ApartStays(w.runs, i, r);
    OwnStep(w, i, r, v);
  }

  lemma DrawKeeps(w: World, i: nat, s: SegId)
    requires Inv(w) && Enabled(w, i, DrawSegment(s))
    ensures Inv(Apply(w, i, DrawSegment(s)))
  {
    var r := w.runs[i].(drawn := w.runs[i].drawn + {s});
    var v := Apply(w, i, DrawSegment(s));
    assert RunOk(w, i);
    assert PlanOk(r, v.used) && Private(r, v.root, v.retired) && Backed(r, v.store, v.retired);
    forall j | 0 <= j < |w.runs| && j != i ensures Apart(r, w.runs[j]) && Apart(w.runs[j], r) {
      assert RunOk(w, j) && Apart(w.runs[i], w.runs[j]) && Apart(w.runs[j], w.runs[i]);
    }
    hide PlanOk, Private, Backed;
    OwnStep(w, i, r, v);
  }

  lemma PutPartKeeps(w: World, i: nat, s: SegId, kind: Kind)
    requires Inv(w) && Enabled(w, i, PutPart(s, kind))
    ensures Inv(Apply(w, i, PutPart(s, kind)))
  {
    var r := w.runs[i].(written := w.runs[i].written + {Part(s, kind)});
    var v := Apply(w, i, PutPart(s, kind));
    assert RunOk(w, i);
    assert PlanOk(r, v.used) && Private(r, v.root, v.retired) && Backed(r, v.store, v.retired);
    ApartStays(w.runs, i, r);
    hide PlanOk, Private, Backed;
    OwnStep(w, i, r, v);
  }

  lemma AdoptKeeps(w: World, i: nat, s: SegId)
    requires Inv(w) && Enabled(w, i, Adopt(s))
    ensures Inv(Apply(w, i, Adopt(s)))
  {
    var b := w.runs[i];
    var v := Apply(w, i, Adopt(s));
    var r := v.runs[i];
    assert RunOk(w, i);
    forall n | Names(r.plan, n) ensures n in v.store || n in v.retired {
      assert n.seg == s || Names(b.plan, n);
      if n.seg == s {
        match n.kind { case Terms => case Postings => case Docs => }
        assert n in b.written;
      }
    }
    assert PlanOk(r, v.used) && Private(r, v.root, v.retired) && Backed(r, v.store, v.retired);
    ApartStays(w.runs, i, r);
    hide PlanOk, Private, Backed;
    OwnStep(w, i, r, v);
  }

  lemma PutDeadKeeps(w: World, i: nat, s: SegId, dead: set<nat>)
    requires Inv(w) && Enabled(w, i, PutDead(s, dead))
    ensures Inv(Apply(w, i, PutDead(s, dead)))
  {
    var b := w.runs[i];
    var v := Apply(w, i, PutDead(s, dead));
    var r := v.runs[i];
    assert RunOk(w, i);
    forall n | Names(r.plan, n) ensures n in v.store || n in v.retired {
      assert n == Dead(s, dead) || Names(b.plan, n);
    }
    assert PlanOk(r, v.used) && Private(r, v.root, v.retired) && Backed(r, v.store, v.retired);
    ApartStays(w.runs, i, r);
    hide PlanOk, Private, Backed;
    OwnStep(w, i, r, v);
  }

  lemma DropKeeps(w: World, i: nat, s: SegId)
    requires Inv(w) && Enabled(w, i, DropSegment(s))
    ensures Inv(Apply(w, i, DropSegment(s)))
  {
    var v := Apply(w, i, DropSegment(s));
    var r := v.runs[i];
    assert RunOk(w, i);
    assert forall n :: Names(r.plan, n) ==> Names(w.runs[i].plan, n);
    assert PlanOk(r, v.used) && Private(r, v.root, v.retired) && Backed(r, v.store, v.retired);
    ApartStays(w.runs, i, r);
    hide PlanOk, Private, Backed;
    OwnStep(w, i, r, v);
  }

  lemma StopKeeps(w: World, i: nat)
    requires Inv(w) && i < |w.runs|
    ensures Inv(w.(runs := w.runs[i := Idle]))
  {
    ApartStays(w.runs, i, Idle);
    OwnStep(w, i, Idle, w.(runs := w.runs[i := Idle]));
  }

  // ---------------------------------------------------------------------------------------------
  // Deleting and publishing

  /** A name the root still uses is not retired, so no pending deletion can reach it. */
  lemma NamedIsNotRetired(w: World, n: Name)
    requires Inv(w) && w.root.Loaded? && Names(w.root.segments, n)
    ensures n !in w.retired
  {
    hide RunsApart, RunOk;
  }

  lemma DeleteKeeps(w: World, i: nat, n: Name)
    requires Inv(w) && Enabled(w, i, Delete(n))
    ensures Inv(Apply(w, i, Delete(n)))
  {
    var v := Apply(w, i, Delete(n));
    assert RunOk(w, i);
    assert n in w.retired;
    if w.root.Loaded? {
      forall m | Names(w.root.segments, m) ensures m in v.store {
        NamedIsNotRetired(w, m);
      }
    }
    assert StoreOk(v) && RootReadable(v);
    hide PlanOk, Private, StoreOk, RootReadable;
    forall j | 0 <= j < |v.runs| ensures RunOk(v, j) {
      assert RunOk(w, j);
    }
    assert RunsApart(v.runs);
  }

  /** When the snapshot is still the root, nothing the plan names has been retired. */
  lemma PlanNotRetired(w: World, i: nat, n: Name)
    requires Inv(w) && i < |w.runs| && w.runs[i].Building? && w.root == w.runs[i].snapshot
    requires Names(w.runs[i].plan, n)
    ensures n !in w.retired
  {
    assert RunOk(w, i);
    hide RunsApart, RootReadable, Backed;
  }

  /** Whatever was retired before, or is handed to the collector now, no root derived from the plan can name. */
  lemma SwapRetires(w: World, i: nat, n: Name)
    requires Inv(w) && i < |w.runs| && w.runs[i].Building? && w.root == w.runs[i].snapshot
    requires n in w.retired || n in Garbage(w.runs[i])
    ensures Gone(w.runs[i].plan, n) && n.seg in w.used
  {
    var b := w.runs[i];
    assert RunOk(w, i);
    hide RunsApart, RootReadable, Backed;
    if n in w.retired {
      assert Gone(w.root.segments, n);
    } else if Replaces(b.before, n) {
      var p :| p in b.before && BlobOf(p.0, p.1, n);
    }
  }

  /** A run that did not win keeps its private IDs private. */
  lemma SwapPrivate(w: World, i: nat, j: nat)
    requires Inv(w) && i < |w.runs| && j < |w.runs| && i != j && w.runs[i].Building? && w.runs[j].Building?
    requires w.root == w.runs[i].snapshot
    ensures Private(w.runs[j], Loaded(w.runs[i].plan), w.retired + Garbage(w.runs[i]))
  {
    var b, c := w.runs[i], w.runs[j];
    assert RunOk(w, i) && RunOk(w, j) && Apart(c, b) && Apart(b, c);
    hide RunsApart, RootReadable, Backed, StoreOk;
    forall n | n in w.retired + Garbage(b) && n.seg in c.drawn ensures c.snapshot.Unreadable? {
      ReplacedIds(b, w.used, n);
    }
  }

  lemma ReplacedIds(b: Indexer, used: set<SegId>, n: Name)
    requires b.Building? && PlanOk(b, used)
    ensures Replaces(b.before, n) ==> n.seg in b.drawn || n.seg in Ids(b.snapshot)
  {
  }

  lemma SwapKeeps(w: World, i: nat)
    requires Inv(w) && i < |w.runs| && w.runs[i].Building? && w.root == w.runs[i].snapshot
    ensures Inv(Apply(w, i, Swap))
  {
    var b := w.runs[i];
    var v := Apply(w, i, Swap);
    SwapStore(w, i);
    forall j | 0 <= j < |v.runs| ensures RunOk(v, j) {
      assert RunOk(w, j);
      if j != i && w.runs[j].Building? {
        SwapPrivate(w, i, j);
      }
    }
    assert RunsApart(v.runs);
  }

  lemma SwapStore(w: World, i: nat)
    requires Inv(w) && i < |w.runs| && w.runs[i].Building? && w.root == w.runs[i].snapshot
    ensures StoreOk(Apply(w, i, Swap)) && RootReadable(Apply(w, i, Swap))
  {
    var b := w.runs[i];
    var v := Apply(w, i, Swap);
    assert RunOk(w, i);
    forall n | n in v.retired ensures n.seg in v.used && Gone(b.plan, n) {
      SwapRetires(w, i, n);
    }
    forall n | Names(b.plan, n) ensures n in v.store {
      PlanNotRetired(w, i, n);
    }
  }

  lemma StepKeeps(w: World, i: nat, a: Action)
    requires Inv(w) && Enabled(w, i, a)
    ensures Inv(Apply(w, i, a))
  {
    hide Inv;
    match a
    case Begin(rebuild) => BeginKeeps(w, i, rebuild);
    case TakeInventory => InventoryKeeps(w, i);
    case DrawSegment(s) => DrawKeeps(w, i, s);
    case PutPart(s, kind) => PutPartKeeps(w, i, s, kind);
    case Adopt(s) => AdoptKeeps(w, i, s);
    case PutDead(s, dead) => PutDeadKeeps(w, i, s, dead);
    case DropSegment(s) => DropKeeps(w, i, s);
    case Swap =>
      if w.root == w.runs[i].snapshot {
        SwapKeeps(w, i);
      } else {
        StopKeeps(w, i);
      }
    case Delete(n) => DeleteKeeps(w, i, n);
    case Stop => StopKeeps(w, i);
  }

  // ---------------------------------------------------------------------------------------------
  // Whole runs

  datatype Step = Step(run: nat, action: Action)

  predicate Legal(w: World, steps: seq<Step>)
    decreases |steps|
  {
    steps == [] ||
    (Enabled(w, steps[0].run, steps[0].action) && Legal(Apply(w, steps[0].run, steps[0].action), steps[1..]))
  }

  function Execute(w: World, steps: seq<Step>): World
    requires Legal(w, steps)
    decreases |steps|
  {
    if steps == [] then w else Execute(Apply(w, steps[0].run, steps[0].action), steps[1..])
  }

  lemma {:induction false} RunKeeps(w: World, steps: seq<Step>)
    requires Inv(w) && Legal(w, steps)
    ensures Inv(Execute(w, steps)) && w.retired <= Execute(w, steps).retired
    decreases |steps|
  {
    if steps != [] {
      StepKeeps(w, steps[0].run, steps[0].action);
      RetiredGrows(w, steps[0].run, steps[0].action);
      hide Inv, Apply, Enabled;
      RunKeeps(Apply(w, steps[0].run, steps[0].action), steps[1..]);
    }
  }

  lemma RetiredGrows(w: World, i: nat, a: Action)
    requires Enabled(w, i, a)
    ensures w.retired <= Apply(w, i, a).retired
  {
  }

  /**
   Over every interleaving of indexers, with collections and sweeps delayed arbitrarily: every
   segment-scoped blob the current root names is in the store.
   */
  lemma RootNeverLosesABlob(w: World, steps: seq<Step>)
    requires Init(w) && Legal(w, steps)
    ensures RootReadable(Execute(w, steps))
  {
    hide Legal, Execute, RootReadable;
    InitInv(w);
    RunKeeps(w, steps);
  }

  /** A name once handed to a collector is never named by a root again, ABA swaps included. */
  lemma RetiredForever(w: World, steps: seq<Step>, n: Name)
    requires Inv(w) && Legal(w, steps) && n in w.retired
    ensures var v := Execute(w, steps); v.root.Loaded? && !Names(v.root.segments, n)
  {
    hide Legal, Execute, Inv;
    RunKeeps(w, steps);
    GoneIsNotNamed(Execute(w, steps), n);
  }

  lemma GoneIsNotNamed(w: World, n: Name)
    requires Inv(w) && n in w.retired
    ensures w.root.Loaded? && !Names(w.root.segments, n)
  {
    hide RunsApart, RunOk;
  }
}
