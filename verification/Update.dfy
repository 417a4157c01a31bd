/**
 The incremental diff (`update_index` and `write_bounded_segments` in
 crates/index/src/segment.rs, `maybe_compact` and `merge_segments` in
 crates/index/src/segment/compact.rs): tombstones, new shards and merges as one account of live
 sources.
 */
module Update {
  import opened Wrappers
  import opened Slices

  type Key = nat
  type Version = nat

  /** `retry` marks a source whose decoding failed for a reason that may pass. */
  datatype Source = Source(key: Key, version: Version, failed: bool, retry: bool)

  /** A source table and its tombstones. */
  datatype Segment = Segment(sources: seq<Source>, dead: set<nat>)

  type Listed = (Key, Version)

  /**
   What the algorithm is run against: `fits` says whether a shard builds within the document cap,
   `decode` gives the failed and retry flags of a built source, `repack` is the heuristic of
   `should_repack`, `room` the size caps of a merge, and `live` a segment's live document count.
   */
  datatype Policy = Policy(fits: seq<Listed> -> bool, decode: Listed -> (bool, bool), repack: Segment -> bool,
                           room: (Segment, Segment) -> bool, live: Segment -> nat, shard: nat, target: nat)

  ghost predicate SegmentOk(seg: Segment) {
    forall i :: i in seg.dead ==> i < |seg.sources|
  }

  ghost predicate SegmentsOk(segs: seq<Segment>) {
    forall s :: 0 <= s < |segs| ==> SegmentOk(segs[s])
  }

  // ---------------------------------------------------------------------------------------------
  // The account: which sources are live

  /** The live sources among the first `n`, in order. */
  function LiveUpTo(seg: Segment, n: nat): seq<Source>
    requires n <= |seg.sources|
  {
    if n == 0 then [] else LiveUpTo(seg, n - 1) + (if n - 1 in seg.dead then [] else [seg.sources[n - 1]])
  }

  function LiveIn(seg: Segment): seq<Source> { LiveUpTo(seg, |seg.sources|) }

  function LiveAll(segs: seq<Segment>): seq<Source> {
    if segs == [] then [] else LiveAll(segs[..|segs| - 1]) + LiveIn(segs[|segs| - 1])
  }

  /** Each key has at most one live source. */
  ghost predicate OnePerKey(m: multiset<Source>) {
    && (forall a, b :: a in m && b in m && a.key == b.key ==> a == b)
    && (forall a :: a in m ==> m[a] == 1)
  }

  /** The live sources are exactly the listing: one for each listed key, with the listed version. */
  ghost predicate MatchesListing(m: multiset<Source>, listing: seq<Listed>) {
    && OnePerKey(m)
    && (forall a :: a in m ==> (a.key, a.version) in listing)
    && (forall l :: l in listing ==> exists a :: a in m && a.key == l.0 && a.version == l.1)
  }

  ghost predicate DistinctKeys(listing: seq<Listed>) {
    forall i, j :: 0 <= i < |listing| && 0 <= j < |listing| && listing[i].0 == listing[j].0 ==> i == j
  }

  lemma LiveAllLast(segs: seq<Segment>, last: Segment)
    ensures LiveAll(segs + [last]) == LiveAll(segs) + LiveIn(last)
  {
    assert (segs + [last])[..|segs|] == segs;
  }

  lemma {:induction false} LiveAllJoins(a: seq<Segment>, b: seq<Segment>)
    ensures LiveAll(a + b) == LiveAll(a) + LiveAll(b)
  {
    if b == [] {
      assert a + b == a;
      assert LiveAll(b) == [];
    } else {
      hide *;
      var n := |b| - 1;
      LiveAllJoins(a, b[..n]);
      LiveAllLast(b[..n], b[n]);
      LiveAllLast(a + b[..n], b[n]);
      SplitLast(b);
      Associative(a, b[..n], [b[n]]);
      Associative(LiveAll(a), LiveAll(b[..n]), LiveIn(b[n]));
    }
  }

  lemma LiveAllOne(seg: Segment)
    ensures LiveAll([seg]) == LiveIn(seg)
  {
    assert [seg][..0] == [];
  }

  lemma {:induction false} LiveUpToIs(seg: Segment, n: nat, a: Source)
    requires n <= |seg.sources|
    ensures a in LiveUpTo(seg, n) <==> exists i :: 0 <= i < n && i !in seg.dead && seg.sources[i] == a
  {
    if n > 0 {
      LiveUpToIs(seg, n - 1, a);
    }
  }

  predicate LiveAt(segs: seq<Segment>, s: nat, i: nat) {
    s < |segs| && i < |segs[s].sources| && i !in segs[s].dead
  }

  lemma LiveAllStep(segs: seq<Segment>)
    requires segs != []
    ensures LiveAll(segs) == LiveAll(segs[..|segs| - 1]) + LiveIn(segs[|segs| - 1])
  {
  }

  lemma {:induction false} LiveAllHas(segs: seq<Segment>, s: nat, i: nat)
    requires LiveAt(segs, s, i)
    ensures segs[s].sources[i] in LiveAll(segs)
  {
    var n := |segs| - 1;
    LiveAllStep(segs);
    hide LiveAll;
    if s == n {
      LiveUpToIs(segs[n], |segs[n].sources|, segs[s].sources[i]);
    } else {
      LiveAllHas(segs[..n], s, i);
    }
  }

  lemma {:induction false} LiveAllFrom(segs: seq<Segment>, a: Source) returns (s: nat, i: nat)
    requires a in LiveAll(segs)
    ensures LiveAt(segs, s, i) && segs[s].sources[i] == a
  {
    var n := |segs| - 1;
    LiveAllStep(segs);
    hide LiveAll;
    if a in LiveIn(segs[n]) {
      LiveUpToIs(segs[n], |segs[n].sources|, a);
      i :| 0 <= i < |segs[n].sources| && i !in segs[n].dead && segs[n].sources[i] == a;
      s := n;
    } else {
      s, i := LiveAllFrom(segs[..n], a);
    }
  }

  lemma LiveAllIs(segs: seq<Segment>, a: Source)
    ensures a in LiveAll(segs) <==> exists s: nat, i: nat :: LiveAt(segs, s, i) && segs[s].sources[i] == a
  {
    hide LiveAll;
    if a in LiveAll(segs) {
      var s, i := LiveAllFrom(segs, a);
    }
    if s: nat, i: nat :| LiveAt(segs, s, i) && segs[s].sources[i] == a {
      LiveAllHas(segs, s, i);
    }
  }

  /** With one live source per key, a key determines where its live source is. */
  lemma LiveAtUnique(segs: seq<Segment>, s: nat, i: nat, t: nat, j: nat)
    requires OnePerKey(multiset(LiveAll(segs)))
    requires LiveAt(segs, s, i) && LiveAt(segs, t, j) && segs[s].sources[i].key == segs[t].sources[j].key
    ensures s == t && i == j
  {
    var a := segs[s].sources[i];
    LiveAllIs(segs, a);
    LiveAllIs(segs, segs[t].sources[j]);
    assert a in multiset(LiveAll(segs));
    assert segs[t].sources[j] in multiset(LiveAll(segs));
    if s != t || i != j {
      LiveTwice(segs, s, i, t, j, a);
    }
  }

  lemma LiveUpToStep(seg: Segment, n: nat)
    requires 0 < n <= |seg.sources|
    ensures n - 1 in seg.dead ==> LiveUpTo(seg, n) == LiveUpTo(seg, n - 1)
    ensures n - 1 !in seg.dead ==> LiveUpTo(seg, n) == LiveUpTo(seg, n - 1) + [seg.sources[n - 1]]
  {
  }

  lemma CountNext(x: seq<Source>, b: Source, a: Source)
    ensures multiset(x + [b])[a] == multiset(x)[a] + if a == b then 1 else 0
    ensures a in x <==> multiset(x)[a] >= 1
  {
  }

  lemma {:induction false} LiveUpToTwice(seg: Segment, n: nat, i: nat, j: nat, a: Source)
    requires i < j < n <= |seg.sources| && i !in seg.dead && j !in seg.dead && seg.sources[i] == seg.sources[j] == a
    ensures multiset(LiveUpTo(seg, n))[a] >= 2
  {
    hide LiveUpTo;
    LiveUpToStep(seg, n);
    CountNext(LiveUpTo(seg, n - 1), seg.sources[n - 1], a);
    if j == n - 1 {
      LiveUpToIs(seg, n - 1, a);
    } else {
      LiveUpToTwice(seg, n - 1, i, j, a);
    }
  }

  lemma {:induction false} LiveTwice(segs: seq<Segment>, s: nat, i: nat, t: nat, j: nat, a: Source)
    requires LiveAt(segs, s, i) && LiveAt(segs, t, j) && (s != t || i != j)
    requires segs[s].sources[i] == a == segs[t].sources[j]
    ensures multiset(LiveAll(segs))[a] >= 2
  {
    var n := |segs| - 1;
    LiveAllStep(segs);
    CountJoins(LiveAll(segs[..n]), LiveIn(segs[n]), a);
    hide LiveAll;
    if s < n && t < n {
      assert LiveAt(segs[..n], s, i) && LiveAt(segs[..n], t, j);
      LiveTwice(segs[..n], s, i, t, j, a);
    } else if s == n && t == n {
      LiveUpToTwice(segs[n], |segs[n].sources|, if i < j then i else j, if i < j then j else i, a);
    } else {
      LiveUpToIs(segs[n], |segs[n].sources|, a);
      var (u, k) := if s < n then (s, i) else (t, j);
      assert LiveAt(segs[..n], u, k);
      LiveAllHas(segs[..n], u, k);
    }
  }

  lemma CountJoins(x: seq<Source>, y: seq<Source>, a: Source)
    ensures multiset(x + y)[a] == multiset(x)[a] + multiset(y)[a]
    ensures a in x <==> multiset(x)[a] >= 1
    ensures a in y <==> multiset(y)[a] >= 1
  {
  }

  // ---------------------------------------------------------------------------------------------
  // The live map and the diff

  datatype Loc = Loc(seg: nat, id: nat)

  /** `live` locates one live source of every live key. */
  ghost predicate Locates(segs: seq<Segment>, live: map<Key, Loc>, s: nat, n: nat) {
    && (forall k :: k in live ==> LiveAt(segs, live[k].seg, live[k].id) && segs[live[k].seg].sources[live[k].id].key == k)
    && (forall t: nat, i: nat :: LiveAt(segs, t, i) && (t < s || (t == s && i < n)) ==> segs[t].sources[i].key in live)
  }

  /** Newest entry per key wins; dead IDs are left out. */
  method BuildLive(segs: seq<Segment>) returns (live: map<Key, Loc>)
    ensures Locates(segs, live, |segs|, 0)
  {
    live := map[];
    for s := 0 to |segs|
      invariant Locates(segs, live, s, 0)
    {
      for i := 0 to |segs[s].sources|
        invariant Locates(segs, live, s, i)
      {
        if i !in segs[s].dead {
          live := live[segs[s].sources[i].key := Loc(s, i)];
        }
      }
    }
  }

  predicate ListedAs(listing: seq<Listed>, k: Key, v: Version) { (k, v) in listing }

  /** A live source that the listing no longer backs, or that must be decoded again. */
  predicate Stale(listing: seq<Listed>, a: Source) {
    !ListedAs(listing, a.key, a.version) || a.retry
  }

  /** Listed entries without an up-to-date live source. */
  ghost predicate NeedsAdding(segs: seq<Segment>, listing: seq<Listed>, l: Listed) {
    && l in listing
    && !exists a :: a in LiveAll(segs) && a.key == l.0 && a.version == l.1 && !a.retry
  }

  method CollectAdditions(segs: seq<Segment>, live: map<Key, Loc>, listing: seq<Listed>) returns (toAdd: seq<Listed>)
    requires OnePerKey(multiset(LiveAll(segs))) && Locates(segs, live, |segs|, 0) && DistinctKeys(listing)
    ensures DistinctKeys(toAdd)
    ensures forall l :: l in toAdd <==> NeedsAdding(segs, listing, l)
  {
    toAdd := [];
    ghost var from: seq<nat> := [];
    hide OnePerKey, NeedsAdding, LiveAll;
    for n := 0 to |listing|
      invariant |from| == |toAdd|
      invariant forall i :: 0 <= i < |from| ==> from[i] < n && toAdd[i] == listing[from[i]]
      invariant forall i, j :: 0 <= i < j < |from| ==> from[i] < from[j]
      invariant forall l :: l in toAdd <==> l in listing[..n] && NeedsAdding(segs, listing, l)
    {
      var (key, version) := listing[n];
      var current := key in live && (var a := segs[live[key].seg].sources[live[key].id]; a.version == version && !a.retry);
      AdditionIs(segs, live, listing, listing[n], current);
      assert listing[..n + 1] == listing[..n] + [listing[n]];
      if !current {
        toAdd := toAdd + [listing[n]];
        from := from + [n];
      }
    }
    assert listing[..|listing|] == listing;
    assert forall l :: NeedsAdding(segs, listing, l) ==> l in listing by { AdditionsListed(segs, listing); }
  }

  lemma AdditionsListed(segs: seq<Segment>, listing: seq<Listed>)
    ensures forall l :: NeedsAdding(segs, listing, l) ==> l in listing
  {
  }

  lemma AdditionIs(segs: seq<Segment>, live: map<Key, Loc>, listing: seq<Listed>, l: Listed, current: bool)
    requires OnePerKey(multiset(LiveAll(segs))) && Locates(segs, live, |segs|, 0) && l in listing
    requires current <==> l.0 in live && (var a := segs[live[l.0].seg].sources[live[l.0].id]; a.version == l.1 && !a.retry)
    ensures NeedsAdding(segs, listing, l) <==> !current
  {
    if current {
      LiveAllIs(segs, segs[live[l.0].seg].sources[live[l.0].id]);
    } else {
      forall a | a in LiveAll(segs) && a.key == l.0 ensures !(a.version == l.1 && !a.retry) {
        LiveAllIs(segs, a);
        var t: nat, i: nat :| LiveAt(segs, t, i) && segs[t].sources[i] == a;
        LiveAtUnique(segs, t, i, live[l.0].seg, live[l.0].id);
      }
    }
  }

  /** The listing as a map: a later entry of the same key would win. */
  method BuildListed(listing: seq<Listed>) returns (listed: map<Key, Version>)
    requires DistinctKeys(listing)
    ensures forall k, v :: ListedAs(listing, k, v) <==> k in listed && listed[k] == v
  {
    listed := map[];
    for n := 0 to |listing|
      invariant forall k :: k in listed ==> exists i :: 0 <= i < n && listing[i] == (k, listed[k])
      invariant forall i :: 0 <= i < n ==> listing[i].0 in listed && listed[listing[i].0] == listing[i].1
    {
      listed := listed[listing[n].0 := listing[n].1];
    }
  }

  ghost predicate StaleAt(segs: seq<Segment>, listing: seq<Listed>, l: Loc) {
    LiveAt(segs, l.seg, l.id) && Stale(listing, segs[l.seg].sources[l.id])
  }

  /** The stale locations whose keys have been visited. */
  ghost predicate StaleBut(segs: seq<Segment>, listing: seq<Listed>, keys: set<Key>, stale: set<Loc>) {
    forall l :: l in stale <==> StaleAt(segs, listing, l) && segs[l.seg].sources[l.id].key !in keys
  }

  /** Live sources that are unlisted, listed with another version, or to be decoded again. */
  method CollectStale(segs: seq<Segment>, live: map<Key, Loc>, listing: seq<Listed>) returns (stale: set<Loc>)
    requires OnePerKey(multiset(LiveAll(segs))) && Locates(segs, live, |segs|, 0) && DistinctKeys(listing)
    ensures forall l :: l in stale <==> StaleAt(segs, listing, l)
  {
    var listed := BuildListed(listing);
    stale := {};
    var keys := live.Keys;
    NothingVisited(segs, live, listing);
    hide OnePerKey, LiveAll, DistinctKeys, StaleBut, StaleAt, Stale;
    while keys != {}
      invariant keys <= live.Keys && StaleBut(segs, listing, keys, stale)
    {
      var k :| k in keys;
      var a := segs[live[k].seg].sources[live[k].id];
      assert ListedAs(listing, k, a.version) <==> k in listed && listed[k] == a.version;
      Visit(segs, live, listing, keys, stale, k);
      if k !in listed || a.version != listed[k] || a.retry {
        assert Stale(listing, a) by { StaleIs(listing, a); }
        stale := stale + {live[k]};
      } else {
        assert !Stale(listing, a) by { StaleIs(listing, a); }
      }
      keys := keys - {k};
    }
    AllVisited(segs, listing, stale);
  }

  lemma StaleIs(listing: seq<Listed>, a: Source)
    ensures Stale(listing, a) <==> !ListedAs(listing, a.key, a.version) || a.retry
  {
  }

  lemma NothingVisited(segs: seq<Segment>, live: map<Key, Loc>, listing: seq<Listed>)
    requires Locates(segs, live, |segs|, 0)
    ensures StaleBut(segs, listing, live.Keys, {})
  {
  }

  lemma AllVisited(segs: seq<Segment>, listing: seq<Listed>, stale: set<Loc>)
    requires StaleBut(segs, listing, {}, stale)
    ensures forall l :: l in stale <==> StaleAt(segs, listing, l)
  {
  }

  lemma Visit(segs: seq<Segment>, live: map<Key, Loc>, listing: seq<Listed>, keys: set<Key>, stale: set<Loc>, k: Key)
    requires OnePerKey(multiset(LiveAll(segs))) && Locates(segs, live, |segs|, 0) && k in keys && keys <= live.Keys
    requires StaleBut(segs, listing, keys, stale)
    ensures var a := segs[live[k].seg].sources[live[k].id];
      a.key == k && StaleBut(segs, listing, keys - {k}, if Stale(listing, a) then stale + {live[k]} else stale)
  {
    hide OnePerKey, LiveAll, Stale;
    var now := if Stale(listing, segs[live[k].seg].sources[live[k].id]) then stale + {live[k]} else stale;
    forall l ensures l in now <==> StaleAt(segs, listing, l) && segs[l.seg].sources[l.id].key !in keys - {k} {
      if LiveAt(segs, l.seg, l.id) && segs[l.seg].sources[l.id].key == k {
        AllLocated(segs, live, l);
      }
    }
  }

  lemma AllLocated(segs: seq<Segment>, live: map<Key, Loc>, l: Loc)
    requires OnePerKey(multiset(LiveAll(segs))) && Locates(segs, live, |segs|, 0) && LiveAt(segs, l.seg, l.id)
    ensures var k := segs[l.seg].sources[l.id].key; k in live && live[k] == l
  {
    var k := segs[l.seg].sources[l.id].key;
    LiveAtUnique(segs, l.seg, l.id, live[k].seg, live[k].id);
  }

  function DeadIn(stale: set<Loc>, s: nat): set<nat> {
    set l | l in stale && l.seg == s :: l.id
  }

  ghost predicate Tombstoned(segs: seq<Segment>, stale: set<Loc>, r: seq<Segment>, n: nat)
    requires n <= |segs|
  {
    |r| == n && forall s :: 0 <= s < n ==> r[s] == Segment(segs[s].sources, segs[s].dead + DeadIn(stale, s))
  }

  method Tombstone(segs: seq<Segment>, stale: set<Loc>) returns (r: seq<Segment>)
    ensures Tombstoned(segs, stale, r, |segs|)
  {
    r := [];
    for s := 0 to |segs|
      invariant Tombstoned(segs, stale, r, s)
    {
      r := r + [Segment(segs[s].sources, segs[s].dead + DeadIn(stale, s))];
    }
  }

  /** The sources that may stay. */
  function Current(listing: seq<Listed>, xs: seq<Source>): seq<Source> {
    if xs == [] then []
    else
      var last := xs[|xs| - 1];
      Current(listing, xs[..|xs| - 1]) + (if Stale(listing, last) then [] else [last])
  }

  lemma CurrentLast(listing: seq<Listed>, xs: seq<Source>, a: Source)
    ensures Current(listing, xs + [a]) == Current(listing, xs) + (if Stale(listing, a) then [] else [a])
  {
    assert (xs + [a])[..|xs|] == xs;
  }

  lemma {:induction false} CurrentJoins(listing: seq<Listed>, a: seq<Source>, b: seq<Source>)
    ensures Current(listing, a + b) == Current(listing, a) + Current(listing, b)
  {
    if b == [] {
      assert a + b == a;
      assert Current(listing, b) == [];
    } else {
      hide *;
      var n := |b| - 1;
      CurrentJoins(listing, a, b[..n]);
      CurrentLast(listing, b[..n], b[n]);
      CurrentLast(listing, a + b[..n], b[n]);
      SplitLast(b);
      Associative(a, b[..n], [b[n]]);
      Associative(Current(listing, a), Current(listing, b[..n]), if Stale(listing, b[n]) then [] else [b[n]]);
    }
  }

  ghost predicate BuriesStale(listing: seq<Listed>, seg: Segment, r: Segment) {
    && r.sources == seg.sources
    && forall i :: 0 <= i < |seg.sources| ==>
         (i in r.dead <==> i in seg.dead || Stale(listing, seg.sources[i]))
  }

  lemma {:induction false} BuriedLive(listing: seq<Listed>, seg: Segment, r: Segment, n: nat)
    requires BuriesStale(listing, seg, r) && n <= |seg.sources| == |r.sources|
    ensures LiveUpTo(r, n) == Current(listing, LiveUpTo(seg, n))
  {
    hide *;
    if n > 0 {
      var a := seg.sources[n - 1];
      BuriedLive(listing, seg, r, n - 1);
      LiveUpToStep(seg, n);
      SameSources(listing, seg, r);
      LiveUpToStep(r, n);
      BuriedAt(listing, seg, r, n - 1);
      CurrentLast(listing, LiveUpTo(seg, n - 1), a);
    } else {
      NothingLive(listing, seg, r);
    }
  }

  lemma SameSources(listing: seq<Listed>, seg: Segment, r: Segment)
    requires BuriesStale(listing, seg, r)
    ensures r.sources == seg.sources
  {
  }

  lemma NothingLive(listing: seq<Listed>, seg: Segment, r: Segment)
    ensures LiveUpTo(r, 0) == Current(listing, LiveUpTo(seg, 0))
  {
  }

  lemma BuriedAt(listing: seq<Listed>, seg: Segment, r: Segment, i: nat)
    requires BuriesStale(listing, seg, r) && i < |seg.sources|
    ensures i in r.dead <==> i in seg.dead || Stale(listing, seg.sources[i])
  {
  }

  lemma {:induction false} TombstonedLive(listing: seq<Listed>, segs: seq<Segment>, r: seq<Segment>)
    requires |r| == |segs| && forall s :: 0 <= s < |segs| ==> BuriesStale(listing, segs[s], r[s])
    ensures LiveAll(r) == Current(listing, LiveAll(segs))
  {
    if segs != [] {
      var n := |segs| - 1;
      hide BuriesStale, Current, LiveUpTo;
      LiveAllStep(segs);
      LiveAllStep(r);
      TombstonedLive(listing, segs[..n], r[..n]);
      BuriedLive(listing, segs[n], r[n], |segs[n].sources|);
      SameSources(listing, segs[n], r[n]);
      CurrentJoins(listing, LiveAll(segs[..n]), LiveIn(segs[n]));
    }
  }

  /** Burying the stale sources leaves live exactly the current ones. */
  lemma TombstoneAccount(segs: seq<Segment>, listing: seq<Listed>, stale: set<Loc>, r: seq<Segment>)
    requires Tombstoned(segs, stale, r, |segs|) && forall l :: l in stale <==> StaleAt(segs, listing, l)
    requires SegmentsOk(segs)
    ensures LiveAll(r) == Current(listing, LiveAll(segs)) && SegmentsOk(r)
  {
    forall s | 0 <= s < |segs| ensures BuriesStale(listing, segs[s], r[s]) && SegmentOk(r[s]) {
      assert SegmentOk(segs[s]);
      forall i | 0 <= i < |segs[s].sources| ensures i in r[s].dead <==> i in segs[s].dead || Stale(listing, segs[s].sources[i]) {
        assert Loc(s, i) in stale <==> StaleAt(segs, listing, Loc(s, i));
      }
    }
    hide BuriesStale, SegmentOk, Stale, StaleAt;
    TombstonedLive(listing, segs, r);
  }

  // ---------------------------------------------------------------------------------------------
  // Merging, retaining, compacting

  function InsertByKey(a: Source, xs: seq<Source>): (r: seq<Source>)
    ensures multiset(r) == multiset(xs) + multiset{a}
  {
    if xs == [] then [a]
    else if a.key < xs[0].key then [a] + xs
    else
      assert xs == [xs[0]] + xs[1..];
      [xs[0]] + InsertByKey(a, xs[1..])
  }

  function SortByKey(xs: seq<Source>): (r: seq<Source>)
    ensures multiset(r) == multiset(xs)
  {
    if xs == [] then []
    else
      assert xs == [xs[0]] + xs[1..];
      InsertByKey(xs[0], SortByKey(xs[1..]))
  }

  /** `merge_segments`: a fresh segment holding exactly the live sources of its inputs, by key. */
  function Merge(victims: seq<Segment>): Segment {
    Segment(SortByKey(LiveAll(victims)), {})
  }

  lemma {:induction false} NoDeadAllLive(seg: Segment, n: nat)
    requires seg.dead == {} && n <= |seg.sources|
    ensures LiveUpTo(seg, n) == seg.sources[..n]
  {
    if n > 0 {
      NoDeadAllLive(seg, n - 1);
      assert seg.sources[..n] == seg.sources[..n - 1] + [seg.sources[n - 1]];
    }
  }

  lemma WholeLive(seg: Segment)
    requires seg.dead == {}
    ensures LiveIn(seg) == seg.sources
  {
    NoDeadAllLive(seg, |seg.sources|);
    assert seg.sources[..|seg.sources|] == seg.sources;
  }

  lemma MergeAccount(victims: seq<Segment>)
    ensures multiset(LiveIn(Merge(victims))) == multiset(LiveAll(victims)) && SegmentOk(Merge(victims))
  {
    WholeLive(Merge(victims));
  }

  lemma {:induction false} FullyDead(seg: Segment, n: nat)
    requires n <= |seg.sources| && forall i :: 0 <= i < n ==> i in seg.dead
    ensures LiveUpTo(seg, n) == []
  {
    if n > 0 {
      FullyDead(seg, n - 1);
    }
  }

  lemma {:induction false} RangeSize(d: set<nat>, n: nat)
    requires forall i :: i in d ==> i < n
    ensures |d| <= n && (|d| == n ==> forall i :: 0 <= i < n ==> i in d)
  {
    if n > 0 {
      var e := d - {n - 1};
      RangeSize(e, n - 1);
      assert |e| == if n - 1 in d then |d| - 1 else |d|;
    } else {
      assert d == {};
    }
  }

  /** A segment whose tombstones count as many as its sources has no live source. */
  lemma DeadSegmentEmpty(seg: Segment)
    requires SegmentOk(seg) && |seg.dead| == |seg.sources|
    ensures LiveIn(seg) == []
  {
    RangeSize(seg.dead, |seg.sources|);
    FullyDead(seg, |seg.sources|);
  }

  predicate NeedsRepack(p: Policy, purge: bool, seg: Segment) {
    seg.dead != {} && (purge || p.repack(seg))
  }

  /** A segment that stays: rewritten without tombstones, or as it was with some source alive and no call to rewrite it. */
  ghost predicate Retained(p: Policy, purge: bool, segs: seq<Segment>, seg: Segment) {
    || (seg.dead == {} && exists s :: 0 <= s < |segs| && NeedsRepack(p, purge, segs[s]) && seg == Merge([segs[s]]))
    || (seg in segs && |seg.dead| != |seg.sources| && !NeedsRepack(p, purge, seg))
  }

  /** Drop dead segments, rewrite those worth it, keep the rest; the live sources do not change. */
  method Retain(p: Policy, purge: bool, segs: seq<Segment>) returns (keep: seq<Segment>, repacked: bool)
    requires SegmentsOk(segs)
    ensures SegmentsOk(keep) && multiset(LiveAll(keep)) == multiset(LiveAll(segs))
    ensures repacked <==> exists s :: 0 <= s < |segs| && |segs[s].dead| != |segs[s].sources| && NeedsRepack(p, purge, segs[s])
    ensures forall k :: 0 <= k < |keep| ==> Retained(p, purge, segs, keep[k])
  {
    keep, repacked := [], false;
    hide LiveAll, SegmentsOk, LiveIn, Merge, Retained;
    assert SegmentsOk(keep) && LiveAll(keep) == LiveAll(segs[..0]) by { NothingRetained(segs); }
    for s := 0 to |segs|
      invariant SegmentsOk(keep) && multiset(LiveAll(keep)) == multiset(LiveAll(segs[..s]))
      invariant repacked <==> exists k :: 0 <= k < s && |segs[k].dead| != |segs[k].sources| && NeedsRepack(p, purge, segs[k])
      invariant forall k :: 0 <= k < |keep| ==> Retained(p, purge, segs, keep[k])
    {
      RetainStep(segs, s, keep);
      RetainOne(p, purge, segs, s);
      if |segs[s].dead| == |segs[s].sources| {
        continue;
      }
      if NeedsRepack(p, purge, segs[s]) {
        keep := keep + [Merge([segs[s]])];
        repacked := true;
      } else {
        keep := keep + [segs[s]];
      }
    }
    assert segs[..|segs|] == segs;
  }

  lemma RetainOne(p: Policy, purge: bool, segs: seq<Segment>, s: nat)
    requires s < |segs|
    ensures NeedsRepack(p, purge, segs[s]) ==> Retained(p, purge, segs, Merge([segs[s]]))
    ensures |segs[s].dead| != |segs[s].sources| && !NeedsRepack(p, purge, segs[s]) ==> Retained(p, purge, segs, segs[s])
  {
  }

  lemma NothingRetained(segs: seq<Segment>)
    ensures SegmentsOk([]) && LiveAll([]) == LiveAll(segs[..0])
  {
  }

  lemma RetainStep(segs: seq<Segment>, s: nat, keep: seq<Segment>)
    requires SegmentsOk(segs) && s < |segs| && SegmentsOk(keep) && multiset(LiveAll(keep)) == multiset(LiveAll(segs[..s]))
    ensures |segs[s].dead| == |segs[s].sources| ==> multiset(LiveAll(keep)) == multiset(LiveAll(segs[..s + 1]))
    ensures SegmentsOk(keep + [segs[s]]) && multiset(LiveAll(keep + [segs[s]])) == multiset(LiveAll(segs[..s + 1]))
    ensures SegmentsOk(keep + [Merge([segs[s]])]) && multiset(LiveAll(keep + [Merge([segs[s]])])) == multiset(LiveAll(segs[..s + 1]))
  {
    hide *;
    var seg := segs[s];
    TakeOne(segs, s);
    SegmentAt(segs, s);
    LiveAllLast(keep, seg);
    SameAccount(LiveAll(keep), LiveAll(segs[..s]), LiveIn(seg), LiveIn(seg));
    KeepsOk(keep, seg);
    MergeOne(seg);
    LiveAllLast(keep, Merge([seg]));
    SameAccount(LiveAll(keep), LiveAll(segs[..s]), LiveIn(Merge([seg])), LiveIn(seg));
    KeepsOk(keep, Merge([seg]));
    if |seg.dead| == |seg.sources| {
      DeadSegmentEmpty(seg);
      assert LiveAll(segs[..s]) + LiveIn(seg) == LiveAll(segs[..s]);
    }
  }

  lemma SegmentAt(segs: seq<Segment>, s: nat)
    requires SegmentsOk(segs) && s < |segs|
    ensures SegmentOk(segs[s])
  {
  }

  lemma KeepsOk(keep: seq<Segment>, seg: Segment)
    requires SegmentsOk(keep) && SegmentOk(seg)
    ensures SegmentsOk(keep + [seg])
  {
  }

  lemma MergeOne(seg: Segment)
    ensures multiset(LiveIn(Merge([seg]))) == multiset(LiveIn(seg)) && SegmentOk(Merge([seg]))
  {
    hide *;
    MergeAccount([seg]);
    LiveAllOne(seg);
  }

  lemma SameAccount(a: seq<Source>, b: seq<Source>, c: seq<Source>, d: seq<Source>)
    requires multiset(a) == multiset(b) && multiset(c) == multiset(d)
    ensures multiset(a + c) == multiset(b + d)
  {
  }

  lemma TakeOne(segs: seq<Segment>, s: nat)
    requires s < |segs|
    ensures LiveAll(segs[..s + 1]) == LiveAll(segs[..s]) + LiveIn(segs[s])
  {
    assert segs[..s + 1] == segs[..s] + [segs[s]];
    LiveAllLast(segs[..s], segs[s]);
  }

  /** Two neighbours whose merge stays within the caps. */
  predicate Mergeable(p: Policy, segs: seq<Segment>, i: nat) {
    i + 1 < |segs| && p.room(segs[i], segs[i + 1])
  }

  function PairLive(p: Policy, segs: seq<Segment>, i: nat): nat
    requires i + 1 < |segs|
  {
    p.live(segs[i]) + p.live(segs[i + 1])
  }

  /** The first of the mergeable pairs with the fewest live documents. */
  method PickVictim(p: Policy, segs: seq<Segment>) returns (v: Option<nat>)
    ensures v.None? <==> forall i: nat :: !Mergeable(p, segs, i)
    ensures v.Some? ==> Mergeable(p, segs, v.value)
    ensures v.Some? ==> forall i: nat :: Mergeable(p, segs, i) ==>
              PairLive(p, segs, v.value) <= PairLive(p, segs, i) && (i < v.value ==> PairLive(p, segs, v.value) < PairLive(p, segs, i))
  {
    v := None;
    var i: nat := 0;
    while i + 1 < |segs|
      invariant v.None? <==> forall k: nat :: k < i ==> !Mergeable(p, segs, k)
      invariant v.Some? ==> v.value < i && Mergeable(p, segs, v.value)
      invariant v.Some? ==> forall k: nat :: k < i && Mergeable(p, segs, k) ==>
                  PairLive(p, segs, v.value) <= PairLive(p, segs, k) && (k < v.value ==> PairLive(p, segs, v.value) < PairLive(p, segs, k))
    {
      if Mergeable(p, segs, i) && (v.None? || PairLive(p, segs, i) < PairLive(p, segs, v.value)) {
        v := Some(i);
      }
      i := i + 1;
    }
  }

  /** Above the target one adjacent pair is merged if any may be; the live sources do not change. */
  method MaybeCompact(p: Policy, segs: seq<Segment>) returns (r: seq<Segment>, compacted: bool)
    requires SegmentsOk(segs)
    ensures SegmentsOk(r) && multiset(LiveAll(r)) == multiset(LiveAll(segs))
    ensures compacted <==> |segs| > p.target && exists i: nat :: Mergeable(p, segs, i)
    ensures compacted ==> |r| == |segs| - 1
    ensures !compacted ==> r == segs
  {
    if |segs| <= p.target {
      return segs, false;
    }
    var pick := PickVictim(p, segs);
    if pick.None? {
      return segs, false;
    }
    var v := pick.value;
    CompactAccount(segs, v);
    r := segs[..v] + [Merge([segs[v], segs[v + 1]])] + segs[v + 2..];
    compacted := true;
  }

  lemma CompactAccount(segs: seq<Segment>, v: nat)
    requires SegmentsOk(segs) && v + 1 < |segs|
    ensures var r := segs[..v] + [Merge([segs[v], segs[v + 1]])] + segs[v + 2..];
            SegmentsOk(r) && multiset(LiveAll(r)) == multiset(LiveAll(segs))
  {
    var pair := [segs[v], segs[v + 1]];
    var front, back := segs[..v], segs[v + 2..];
    assert segs == front + pair + back;
    MergeAccount(pair);
    hide LiveAll, LiveIn, Merge;
    LiveAllJoins(front + pair, back);
    LiveAllJoins(front, pair);
    LiveAllJoins(front + [Merge(pair)], back);
    LiveAllJoins(front, [Merge(pair)]);
    LiveAllOne(Merge(pair));
  }

  // ---------------------------------------------------------------------------------------------
  // New shards

  function Built(p: Policy, docs: seq<Listed>): (r: seq<Source>)
    ensures |r| == |docs|
    ensures forall i :: 0 <= i < |docs| ==> r[i] == Source(docs[i].0, docs[i].1, p.decode(docs[i]).0, p.decode(docs[i]).1)
  {
    seq(|docs|, i requires 0 <= i < |docs| => Source(docs[i].0, docs[i].1, p.decode(docs[i]).0, p.decode(docs[i]).1))
  }

  /** Each segment is one nonempty slice of the shard that fits, and the slices make up the shard. */
  ghost predicate ShardOf(p: Policy, docs: seq<Listed>, segs: seq<Segment>) {
    && LiveAll(segs) == Built(p, docs)
    && forall s :: 0 <= s < |segs| ==> FittingSlice(p, docs, segs[s])
  }

  ghost predicate FittingSlice(p: Policy, docs: seq<Listed>, seg: Segment) {
    seg.dead == {} && exists i, j :: 0 <= i < j <= |docs| && p.fits(docs[i..j]) && seg.sources == Built(p, docs[i..j])
  }

  /** Build the shard as one segment, or halve it when it exceeds the document cap. */
  method WriteBounded(p: Policy, docs: seq<Listed>) returns (r: Result<seq<Segment>>)
    requires docs != []
    ensures r.Ok? ==> ShardOf(p, docs, r.value)
    ensures r.Err? ==> exists d :: d in docs && !p.fits([d])
    decreases |docs|
  {
    hide ShardOf, Built;
    if p.fits(docs) {
      OneShard(p, docs);
      return Ok([Segment(Built(p, docs), {})]);
    }
    if |docs| <= 1 {
      assert docs == [docs[0]];
      return Err;
    }
    var split := |docs| / 2;
    var left := WriteBounded(p, docs[..split]);
    if left.Err? {
      return Err;
    }
    var right := WriteBounded(p, docs[split..]);
    if right.Err? {
      return Err;
    }
    ShardsJoin(p, docs, split, left.value, right.value);
    return Ok(left.value + right.value);
  }

  lemma OneShard(p: Policy, docs: seq<Listed>)
    requires docs != [] && p.fits(docs)
    ensures ShardOf(p, docs, [Segment(Built(p, docs), {})])
  {
    var seg := Segment(Built(p, docs), {});
    hide LiveAll, LiveIn, Built;
    WholeLive(seg);
    LiveAllOne(seg);
    assert docs[0..|docs|] == docs;
    assert FittingSlice(p, docs, seg);
  }

  lemma SliceOfPart(p: Policy, docs: seq<Listed>, a: nat, b: nat, seg: Segment)
    requires a <= b <= |docs| && FittingSlice(p, docs[a..b], seg)
    ensures FittingSlice(p, docs, seg)
  {
    hide Built;
    var i, j :| 0 <= i < j <= b - a && p.fits(docs[a..b][i..j]) && seg.sources == Built(p, docs[a..b][i..j]);
    SliceOfSlice(docs, a, b, i, j);
  }

  lemma BuiltSplits(p: Policy, docs: seq<Listed>, split: nat)
    requires split <= |docs|
    ensures Built(p, docs) == Built(p, docs[..split]) + Built(p, docs[split..])
  {
  }

  lemma ShardsJoin(p: Policy, docs: seq<Listed>, split: nat, left: seq<Segment>, right: seq<Segment>)
    requires split <= |docs| && ShardOf(p, docs[..split], left) && ShardOf(p, docs[split..], right)
    ensures ShardOf(p, docs, left + right)
  {
    hide LiveAll, Built, FittingSlice;
    LiveAllJoins(left, right);
    BuiltSplits(p, docs, split);
    assert docs[..split] == docs[0..split] && docs[split..] == docs[split..|docs|];
    forall s | 0 <= s < |left + right| ensures FittingSlice(p, docs, (left + right)[s]) {
      if s < |left| {
        SliceOfPart(p, docs, 0, split, left[s]);
      } else {
        SliceOfPart(p, docs, split, |docs|, right[s - |left|]);
      }
    }
  }

  /** `to_add.chunks(SEGMENT_DOC_CAP)`, each written as a bounded shard. */
  method WriteAdditions(p: Policy, toAdd: seq<Listed>) returns (r: Result<seq<Segment>>)
    requires p.shard > 0
    ensures r.Ok? ==> ShardOf(p, toAdd, r.value)
    ensures r.Err? ==> exists d :: d in toAdd && !p.fits([d])
  {
    var segs: seq<Segment> := [];
    var at := 0;
    assert ShardOf(p, toAdd[..0], segs);
    hide ShardOf;
    while at < |toAdd|
      invariant at <= |toAdd| && ShardOf(p, toAdd[..at], segs)
    {
      var end := if at + p.shard < |toAdd| then at + p.shard else |toAdd|;
      var written := WriteBounded(p, toAdd[at..end]);
      if written.Err? {
        return Err;
      }
      assert toAdd[..end][..at] == toAdd[..at] && toAdd[..end][at..] == toAdd[at..end];
      ShardsJoin(p, toAdd[..end], at, segs, written.value);
      segs := segs + written.value;
      at := end;
    }
    assert toAdd[..|toAdd|] == toAdd;
    return Ok(segs);
  }

  // ---------------------------------------------------------------------------------------------
  // The whole update

  datatype Outcome = UpToDate | Publish(segments: seq<Segment>)

  ghost predicate NoRetry(segs: seq<Segment>) {
    forall a :: a in LiveAll(segs) ==> !a.retry
  }

  /** Nothing to add and nothing stale means the live sources already are the listing. */
  lemma IdleMeansConverged(segs: seq<Segment>, listing: seq<Listed>)
    requires OnePerKey(multiset(LiveAll(segs)))
    requires forall l :: !NeedsAdding(segs, listing, l)
    requires forall l :: !StaleAt(segs, listing, l)
    ensures MatchesListing(multiset(LiveAll(segs)), listing) && NoRetry(segs)
  {
    hide LiveAll;
    forall a | a in LiveAll(segs) ensures (a.key, a.version) in listing && !a.retry {
      var s, i := LiveAllFrom(segs, a);
      assert !StaleAt(segs, listing, Loc(s, i));
    }
    forall l | l in listing ensures exists a :: a in multiset(LiveAll(segs)) && a.key == l.0 && a.version == l.1 {
      assert !NeedsAdding(segs, listing, l);
    }
  }

  lemma ConvergedMeansIdle(segs: seq<Segment>, listing: seq<Listed>)
    requires MatchesListing(multiset(LiveAll(segs)), listing) && NoRetry(segs)
    ensures forall l :: !NeedsAdding(segs, listing, l)
    ensures forall l :: !StaleAt(segs, listing, l)
  {
    hide LiveAll;
    forall l | l in listing ensures exists a :: a in LiveAll(segs) && a.key == l.0 && a.version == l.1 && !a.retry {
      var a :| a in multiset(LiveAll(segs)) && a.key == l.0 && a.version == l.1;
    }
    forall l: Loc | LiveAt(segs, l.seg, l.id) ensures !Stale(listing, segs[l.seg].sources[l.id]) {
      LiveAllHas(segs, l.seg, l.id);
      assert segs[l.seg].sources[l.id] in multiset(LiveAll(segs));
    }
  }

  lemma {:induction false} CurrentHas(listing: seq<Listed>, xs: seq<Source>, a: Source)
    ensures multiset(Current(listing, xs))[a] == if Stale(listing, a) then 0 else multiset(xs)[a]
  {
    if xs != [] {
      var n := |xs| - 1;
      assert xs == xs[..n] + [xs[n]];
      CurrentStep(listing, xs);
      hide Current, Stale;
      CurrentHas(listing, xs[..n], a);
      CountNext(xs[..n], xs[n], a);
      CountNext(Current(listing, xs[..n]), xs[n], a);
    }
  }

  lemma CurrentStep(listing: seq<Listed>, xs: seq<Source>)
    requires xs != []
    ensures Current(listing, xs) == if Stale(listing, xs[|xs| - 1]) then Current(listing, xs[..|xs| - 1]) else Current(listing, xs[..|xs| - 1]) + [xs[|xs| - 1]]
  {
  }

  lemma {:induction false} DistinctOnce(xs: seq<Source>, a: Source)
    requires forall i, j :: 0 <= i < j < |xs| ==> xs[i].key != xs[j].key
    requires a in xs
    ensures multiset(xs)[a] == 1
  {
    var n := |xs| - 1;
    assert xs == xs[..n] + [xs[n]];
    CountNext(xs[..n], xs[n], a);
    if xs[n] == a {
      assert a !in xs[..n];
    } else {
      DistinctOnce(xs[..n], a);
    }
  }

  lemma BuiltIs(p: Policy, docs: seq<Listed>, a: Source)
    requires DistinctKeys(docs)
    ensures a in Built(p, docs) ==> (a.key, a.version) in docs && multiset(Built(p, docs))[a] == 1
  {
    if a in Built(p, docs) {
      DistinctOnce(Built(p, docs), a);
    }
  }

  /** The sources that stay and the sources that are added make up the listing. */
  lemma UpdateConverges(p: Policy, segs: seq<Segment>, listing: seq<Listed>, toAdd: seq<Listed>, m: multiset<Source>)
    requires OnePerKey(multiset(LiveAll(segs))) && DistinctKeys(listing) && DistinctKeys(toAdd)
    requires forall l :: l in toAdd <==> NeedsAdding(segs, listing, l)
    requires m == multiset(Current(listing, LiveAll(segs))) + multiset(Built(p, toAdd))
    ensures MatchesListing(m, listing)
  {
    hide LiveAll, Current, Built;
    forall a | a in m ensures InNewIndex(p, segs, listing, toAdd, a) {
      CurrentHas(listing, LiveAll(segs), a);
      BuiltIs(p, toAdd, a);
      AddedIsNotCurrent(p, segs, listing, toAdd, a);
    }
    hide OnePerKey, NeedsAdding, Stale;
    forall a | a in m ensures m[a] == 1 && (a.key, a.version) in listing {
      CountInNewIndex(p, segs, listing, toAdd, m, a);
    }
    forall a, b | a in m && b in m && a.key == b.key ensures a == b {
      OneInNewIndex(p, segs, listing, toAdd, a, b);
    }
    assert OnePerKey(m) by { OnePerKeyHolds(m); }
    forall l | l in listing ensures exists a :: a in m && a.key == l.0 && a.version == l.1 {
      var a := ListedIsPresent(p, segs, listing, toAdd, l);
    }
  }

  lemma OnePerKeyHolds(m: multiset<Source>)
    requires forall a, b :: a in m && b in m && a.key == b.key ==> a == b
    requires forall a :: a in m ==> m[a] == 1
    ensures OnePerKey(m)
  {
  }

  /** A source of the new index either stayed or was added, and not both. */
  ghost predicate InNewIndex(p: Policy, segs: seq<Segment>, listing: seq<Listed>, toAdd: seq<Listed>, a: Source) {
    if a in Built(p, toAdd) then (a.key, a.version) in toAdd && a !in Current(listing, LiveAll(segs))
    else a in LiveAll(segs) && !Stale(listing, a)
  }

  lemma AddedIsNotCurrent(p: Policy, segs: seq<Segment>, listing: seq<Listed>, toAdd: seq<Listed>, a: Source)
    requires forall l :: l in toAdd <==> NeedsAdding(segs, listing, l)
    ensures (a.key, a.version) in toAdd ==> a !in Current(listing, LiveAll(segs))
  {
    CurrentHas(listing, LiveAll(segs), a);
    if (a.key, a.version) in toAdd {
      assert NeedsAdding(segs, listing, (a.key, a.version));
    }
  }

  lemma CountInNewIndex(p: Policy, segs: seq<Segment>, listing: seq<Listed>, toAdd: seq<Listed>, m: multiset<Source>, a: Source)
    requires OnePerKey(multiset(LiveAll(segs))) && DistinctKeys(toAdd)
    requires forall l :: l in toAdd <==> NeedsAdding(segs, listing, l)
    requires m == multiset(Current(listing, LiveAll(segs))) + multiset(Built(p, toAdd))
    requires InNewIndex(p, segs, listing, toAdd, a)
    ensures m[a] == 1 && (a.key, a.version) in listing
  {
    hide LiveAll, Current, Built;
    CurrentHas(listing, LiveAll(segs), a);
    BuiltIs(p, toAdd, a);
    if a in Built(p, toAdd) {
      assert NeedsAdding(segs, listing, (a.key, a.version));
      assert multiset(Current(listing, LiveAll(segs)))[a] == 0;
    } else {
      assert a in multiset(LiveAll(segs));
      assert multiset(Built(p, toAdd))[a] == 0;
    }
  }

  lemma OneInNewIndex(p: Policy, segs: seq<Segment>, listing: seq<Listed>, toAdd: seq<Listed>, a: Source, b: Source)
    requires OnePerKey(multiset(LiveAll(segs))) && DistinctKeys(listing) && DistinctKeys(toAdd)
    requires forall l :: l in toAdd <==> NeedsAdding(segs, listing, l)
    requires InNewIndex(p, segs, listing, toAdd, a) && InNewIndex(p, segs, listing, toAdd, b) && a.key == b.key
    ensures a == b
  {
    hide LiveAll, Current;
    if a in Built(p, toAdd) && b in Built(p, toAdd) {
    } else if a in Built(p, toAdd) {
      AddedExcludesLive(p, segs, listing, toAdd, a, b);
    } else if b in Built(p, toAdd) {
      AddedExcludesLive(p, segs, listing, toAdd, b, a);
    } else {
      assert a in multiset(LiveAll(segs)) && b in multiset(LiveAll(segs));
    }
  }

  lemma AddedExcludesLive(p: Policy, segs: seq<Segment>, listing: seq<Listed>, toAdd: seq<Listed>, a: Source, b: Source)
    requires DistinctKeys(listing) && forall l :: l in toAdd <==> NeedsAdding(segs, listing, l)
    ensures !((a.key, a.version) in toAdd && b in LiveAll(segs) && !Stale(listing, b) && a.key == b.key)
  {
    hide LiveAll;
    var l := (a.key, a.version);
    assert l in toAdd ==> NeedsAdding(segs, listing, l);
    assert l in listing && (b.key, b.version) in listing && a.key == b.key ==> a.version == b.version by {
      if l in listing && (b.key, b.version) in listing && a.key == b.key {
        var i :| 0 <= i < |listing| && listing[i] == l;
        var j :| 0 <= j < |listing| && listing[j] == (b.key, b.version);
      }
    }
  }

  lemma ListedIsPresent(p: Policy, segs: seq<Segment>, listing: seq<Listed>, toAdd: seq<Listed>, l: Listed) returns (a: Source)
    requires l in listing && forall k :: k in toAdd <==> NeedsAdding(segs, listing, k)
    ensures a.key == l.0 && a.version == l.1
    ensures a in multiset(Current(listing, LiveAll(segs))) + multiset(Built(p, toAdd))
  {
    hide LiveAll, Current;
    if NeedsAdding(segs, listing, l) {
      assert l in toAdd;
      var i :| 0 <= i < |toAdd| && toAdd[i] == l;
      a := Built(p, toAdd)[i];
      hide Built;
      assert a in Built(p, toAdd);
    } else {
      a :| a in LiveAll(segs) && a.key == l.0 && a.version == l.1 && !a.retry;
      CurrentHas(listing, LiveAll(segs), a);
      assert a in multiset(LiveAll(segs));
    }
  }

  predicate AnyRepack(p: Policy, purge: bool, segs: seq<Segment>) {
    exists s :: 0 <= s < |segs| && NeedsRepack(p, purge, segs[s])
  }

  /** Neither compaction nor repacking is called for. */
  predicate Settled(p: Policy, purge: bool, segs: seq<Segment>) {
    |segs| <= p.target && !AnyRepack(p, purge, segs)
  }

  lemma ShardsOk(p: Policy, docs: seq<Listed>, segs: seq<Segment>)
    requires ShardOf(p, docs, segs)
    ensures SegmentsOk(segs) && LiveAll(segs) == Built(p, docs)
  {
    forall s | 0 <= s < |segs| ensures SegmentOk(segs[s]) {
      assert FittingSlice(p, docs, segs[s]);
    }
  }

  /** A source built in this run: it needed adding, and its flags are what decoding it gave. */
  ghost predicate Added(p: Policy, segs: seq<Segment>, listing: seq<Listed>, a: Source) {
    && NeedsAdding(segs, listing, (a.key, a.version))
    && (a.failed, a.retry) == p.decode((a.key, a.version))
  }

  /** A live source that is still current stays as it is, with its version and both flags. */
  ghost predicate Stays(segs: seq<Segment>, listing: seq<Listed>, a: Source) {
    a in LiveAll(segs) && !Stale(listing, a)
  }

  /** The live sources are the ones that stay and the ones that were added, and no others. */
  ghost predicate Accounts(p: Policy, segs: seq<Segment>, listing: seq<Listed>, m: multiset<Source>) {
    forall a :: a in m <==> Stays(segs, listing, a) || Added(p, segs, listing, a)
  }

  lemma AccountHolds(p: Policy, segs: seq<Segment>, listing: seq<Listed>, toAdd: seq<Listed>, m: multiset<Source>)
    requires forall l :: l in toAdd <==> NeedsAdding(segs, listing, l)
    requires m == multiset(Current(listing, LiveAll(segs))) + multiset(Built(p, toAdd))
    ensures Accounts(p, segs, listing, m)
  {
    hide LiveAll, Current, NeedsAdding, Stale;
    forall a ensures a in m <==> Stays(segs, listing, a) || Added(p, segs, listing, a) {
      CurrentHas(listing, LiveAll(segs), a);
      assert a in multiset(LiveAll(segs)) <==> a in LiveAll(segs);
      BuiltHas(p, toAdd, a);
    }
  }

  lemma BuiltHas(p: Policy, docs: seq<Listed>, a: Source)
    ensures a in Built(p, docs) <==> (a.key, a.version) in docs && (a.failed, a.retry) == p.decode((a.key, a.version))
  {
    var built := Built(p, docs);
    if (a.key, a.version) in docs && (a.failed, a.retry) == p.decode((a.key, a.version)) {
      var i :| 0 <= i < |docs| && docs[i] == (a.key, a.version);
      assert built[i] == a;
    }
  }

  /**
   `update_index` from the loaded segments to the list it publishes.  Whatever the repack, shard and
   compaction decisions, a published list has exactly one live source for each listed key, with the
   listed version, and none for any other key; an up-to-date exit means this was already so.
   */
  method UpdateIndex(p: Policy, existing: seq<Segment>, listing: seq<Listed>, purge: bool, forced: bool, rootMissing: bool)
    returns (r: Result<Outcome>)
    requires p.shard > 0 && SegmentsOk(existing) && DistinctKeys(listing)
    requires OnePerKey(multiset(LiveAll(existing)))
    ensures r.Ok? && r.value.Publish? ==>
              SegmentsOk(r.value.segments) && MatchesListing(multiset(LiveAll(r.value.segments)), listing)
    ensures r.Ok? && r.value.Publish? ==> Accounts(p, existing, listing, multiset(LiveAll(r.value.segments)))
    ensures r.Ok? && r.value.UpToDate? ==>
              !forced && !rootMissing && NoRetry(existing) && MatchesListing(multiset(LiveAll(existing)), listing)
    ensures MatchesListing(multiset(LiveAll(existing)), listing) && NoRetry(existing) ==>
              (Settled(p, purge, existing) && !forced && !rootMissing ==> r == Ok(UpToDate))
    ensures r.Err? ==> exists l :: NeedsAdding(existing, listing, l) && !p.fits([l])
  {
    hide Accounts, OnePerKey, LiveAll, DistinctKeys, SegmentsOk, MatchesListing, NoRetry, NeedsAdding, StaleAt, Current, Built, ShardOf;
    var live := BuildLive(existing);
    var toAdd := CollectAdditions(existing, live, listing);
    var stale := CollectStale(existing, live, listing);
    IdleIff(existing, listing, toAdd, stale);
    var needsCompaction := |existing| > p.target;
    if toAdd == [] && stale == {} && !forced && !needsCompaction && !AnyRepack(p, purge, existing) && !rootMissing {
      return Ok(UpToDate);
    }
    var buried := Tombstone(existing, stale);
    TombstoneAccount(existing, listing, stale, buried);
    var keep, repacked := Retain(p, purge, buried);
    var written := WriteAdditions(p, toAdd);
    if written.Err? {
      return Err;
    }
    ShardsOk(p, toAdd, written.value);
    JoinAccount(p, keep, written.value, existing, listing, toAdd);
    keep := keep + written.value;
    var compacted: bool;
    keep, compacted := MaybeCompact(p, keep);
    compacted := compacted || repacked;
    if toAdd == [] && stale == {} && !forced && !rootMissing && !compacted {
      return Ok(UpToDate);
    }
    return Ok(Publish(keep));
  }

  lemma IdleIff(segs: seq<Segment>, listing: seq<Listed>, toAdd: seq<Listed>, stale: set<Loc>)
    requires OnePerKey(multiset(LiveAll(segs)))
    requires forall l :: l in toAdd <==> NeedsAdding(segs, listing, l)
    requires forall l :: l in stale <==> StaleAt(segs, listing, l)
    ensures toAdd == [] && stale == {} <==> MatchesListing(multiset(LiveAll(segs)), listing) && NoRetry(segs)
  {
    hide OnePerKey, LiveAll, MatchesListing, NoRetry, NeedsAdding, StaleAt;
    assert toAdd != [] ==> toAdd[0] in toAdd;
    if toAdd == [] && stale == {} {
      IdleMeansConverged(segs, listing);
    }
    if MatchesListing(multiset(LiveAll(segs)), listing) && NoRetry(segs) {
      ConvergedMeansIdle(segs, listing);
    }
  }

  lemma JoinAccount(p: Policy, keep: seq<Segment>, added: seq<Segment>, existing: seq<Segment>, listing: seq<Listed>, toAdd: seq<Listed>)
    requires SegmentsOk(keep) && SegmentsOk(added) && LiveAll(added) == Built(p, toAdd)
    requires multiset(LiveAll(keep)) == multiset(Current(listing, LiveAll(existing)))
    requires OnePerKey(multiset(LiveAll(existing))) && DistinctKeys(listing) && DistinctKeys(toAdd)
    requires forall l :: l in toAdd <==> NeedsAdding(existing, listing, l)
    ensures SegmentsOk(keep + added) && MatchesListing(multiset(LiveAll(keep + added)), listing)
    ensures Accounts(p, existing, listing, multiset(LiveAll(keep + added)))
  {
    LiveAllJoins(keep, added);
    hide OnePerKey, LiveAll, DistinctKeys, MatchesListing, NeedsAdding, Current, Built;
    UpdateConverges(p, existing, listing, toAdd, multiset(LiveAll(keep + added)));
    hide Accounts;
    AccountHolds(p, existing, listing, toAdd, multiset(LiveAll(keep + added)));
  }
}
