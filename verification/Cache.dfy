/**
 The object cache and its state file (`ObjectCache` in crates/s3/src/cache.rs).  Every change to the
 disk is one write; a crash leaves the disk as the last write left it.
 */
module ObjectCaches {
  import opened Wrappers
  import opened Sorting

  type Key = nat

  /** A cached object's file: insertion stamp, size on disk, and whether its content checks out. */
  datatype Entry = Entry(stamp: nat, len: nat, valid: bool)

  /** `Dirty` is any content that is not a whole clean record: absent, truncated or marked. */
  datatype StateFile = Dirty | Clean(total: nat, stamp: nat)

  datatype Disk = Disk(entries: map<Key, Entry>, temps: nat, state: StateFile)

  const HEADER_LEN: nat := 56
  const U64_LIMIT: nat := 0x1_0000_0000_0000_0000

  // ---------------------------------------------------------------------------------------------
  // Sizes and stamps

  ghost function SumLen(m: map<Key, Entry>): nat
    decreases |m|
  {
    if m == map[] then 0 else
      var k :| k in m;
      m[k].len + SumLen(m - {k})
  }

  lemma {:induction false} SumRemove(m: map<Key, Entry>, k: Key)
    requires k in m
    ensures SumLen(m) == m[k].len + SumLen(m - {k})
    decreases |m|
  {
    var j :| j in m && SumLen(m) == m[j].len + SumLen(m - {j});
    if j != k {
      SumRemove(m - {j}, k);
      SumRemove(m - {k}, j);
      assert m - {j} - {k} == m - {k} - {j};
    }
  }

  lemma SumAdd(m: map<Key, Entry>, k: Key, e: Entry)
    requires k !in m
    ensures SumLen(m[k := e]) == SumLen(m) + e.len
  {
    SumRemove(m[k := e], k);
    assert m[k := e] - {k} == m;
  }

  ghost predicate StampsAtMost(m: map<Key, Entry>, stamp: nat) {
    forall k :: k in m ==> m[k].stamp <= stamp
  }

  /** The newest stamp among the entries, 0 when there is none. */
  ghost predicate NewestStamp(m: map<Key, Entry>, stamp: nat) {
    && StampsAtMost(m, stamp)
    && (m == map[] ==> stamp == 0) && (m != map[] ==> exists k :: k in m && m[k].stamp == stamp)
  }

  lemma NewestBounds(m: map<Key, Entry>, stamp: nat)
    requires NewestStamp(m, stamp)
    ensures StampsAtMost(m, stamp)
  {
  }

  lemma OneNewest(m: map<Key, Entry>, a: nat, b: nat)
    requires NewestStamp(m, a) && NewestStamp(m, b)
    ensures a == b
  {
  }

  /** Every file has room for its header. */
  ghost predicate AllWhole(m: map<Key, Entry>) {
    forall k :: k in m ==> m[k].len >= HEADER_LEN
  }

  lemma DirtyIsSafe(cap: nat, d: Disk)
    requires d.state == Dirty
    ensures Safe(cap, d)
  {
  }

  /** What a clean state file promises. */
  ghost predicate Safe(cap: nat, d: Disk) {
    d.state.Clean? ==>
      && d.temps == 0 && d.state.total == SumLen(d.entries) && d.state.total <= cap
      && StampsAtMost(d.entries, d.state.stamp) && AllWhole(d.entries)
  }

  /** First in, first out, names breaking ties. */
  predicate OlderThan(a: (nat, Key), b: (nat, Key)) {
    a.0 < b.0 || (a.0 == b.0 && a.1 < b.1)
  }

  lemma OlderTotal()
    ensures TotalOrder(OlderThan)
  {
  }

  ghost predicate Within(after: map<Key, Entry>, before: map<Key, Entry>) {
    forall k :: k in after ==> k in before && after[k] == before[k]
  }

  /** An entry's place in the eviction order. */
  function Rank(m: map<Key, Entry>, k: Key): (nat, Key) {
    (if k in m then m[k].stamp else 0, k)
  }

  /**
   Eviction removes the oldest entries and no more than it must: without the newest of the removed
   ones the rest would still exceed the cap.
   */
  ghost predicate EvictsOldest(before: map<Key, Entry>, after: map<Key, Entry>, cap: nat) {
    && Within(after, before) && SumLen(after) <= cap
    && (forall r, k :: r in before && r !in after && k in after ==> OlderThan(Rank(before, r), Rank(before, k)))
    && (after == before ||
        exists r :: r in before && r !in after && SumLen(after) + before[r].len > cap
          && forall q :: q in before && q !in after ==> q == r || OlderThan(Rank(before, q), Rank(before, r)))
  }

  /** A newest entry that fits on its own survives. */
  lemma NewestSurvives(before: map<Key, Entry>, after: map<Key, Entry>, cap: nat, key: Key)
    requires EvictsOldest(before, after, cap) && key in before && before[key].len <= cap
    requires forall k :: k in before && k != key ==> before[k].stamp < before[key].stamp
    ensures key in after
  {
    forall k | k in before && k != key ensures !OlderThan(Rank(before, key), Rank(before, k)) {
    }
    assert key !in after ==> after == map[] by {
      assert forall k :: k in after && key !in after ==> k != key && OlderThan(Rank(before, key), Rank(before, k));
    }
    if after != before {
      var r :| r in before && r !in after && SumLen(after) + before[r].len > cap
        && forall q :: q in before && q !in after ==> q == r || OlderThan(Rank(before, q), Rank(before, r));
    }
  }

  function Pairs(m: map<Key, Entry>, keys: seq<Key>): (r: seq<(nat, Key)>)
    requires forall k :: k in keys ==> k in m
    ensures |r| == |keys| && forall i :: 0 <= i < |r| ==> r[i] == Rank(m, keys[i])
  {
    seq(|keys|, i requires 0 <= i < |keys| => assert keys[i] in keys; Rank(m, keys[i]))
  }

  // ---------------------------------------------------------------------------------------------
  // The cache

  class ObjectCache {
    const cap: nat
    var disk: Disk
    /** Every disk a crash could have left behind since this handle was opened. */
    ghost var history: seq<Disk>
    /** False while a directory is being opened whose clean record is wrong for this cap. */
    ghost var tracked: bool

    ghost predicate Linked()
      reads this
    {
      cap < U64_LIMIT && history != [] && history[|history| - 1] == disk
    }

    /** At every write so far, a clean state file told the truth. */
    ghost predicate Sound()
      reads this
    {
      Linked() && tracked && forall i :: 0 <= i < |history| ==> Safe(cap, history[i])
    }

    ghost predicate Steady()
      reads this
    {
      Linked() && (tracked ==> Sound())
    }

    lemma Known()
      ensures Sound() <==> Steady() && tracked
    {
    }

    /** One atomic change of the disk. */
    method Write(d: Disk)
      requires Linked()
      modifies this
      ensures Linked() && tracked == old(tracked) && disk == d && history == old(history) + [d]
      ensures old(Sound()) && Safe(cap, d) ==> Sound()
    {
      disk := d;
      history := history + [d];
    }

    /** `write_state`: the file is truncated before it is rewritten. */
    method WriteState(state: StateFile)
      requires Steady()
      modifies this
      ensures Linked() && tracked == old(tracked) && disk == old(disk).(state := state) && old(history) <= history
      ensures tracked ==> (Sound() <==> Safe(cap, disk))
    {
      hide Safe;
      assert Safe(cap, disk.(state := Dirty)) by { DirtyIsSafe(cap, disk.(state := Dirty)); }
      Write(disk.(state := Dirty));
      if state.Clean? {
        Write(disk.(state := state));
      }
    }

    /** `remove_temps`: only a dirty cache can have any. */
    method RemoveTemps()
      requires Steady()
      modifies this
      ensures Steady() && tracked == old(tracked) && disk == old(disk).(temps := 0) && old(history) <= history
    {
      if disk.temps > 0 {
        Write(disk.(temps := 0));
      }
    }

    method RemoveFile(key: Key)
      requires Steady() && key in disk.entries && (tracked ==> disk.state == Dirty)
      modifies this
      ensures Steady() && tracked == old(tracked) && disk == old(disk).(entries := old(disk).entries - {key}) && old(history) <= history
    {
      Write(disk.(entries := disk.entries - {key}));
    }

    /** Files shorter than a header are debris; a clean cache has none. */
    method RemoveShort()
      requires Steady()
      modifies this
      ensures Steady() && tracked == old(tracked) && disk.temps == old(disk.temps) && disk.state == old(disk.state) && old(history) <= history
      ensures disk.entries == WholeEntries(old(disk.entries))
    {
      var keys := disk.entries.Keys;
      while keys != {}
        invariant Steady() && tracked == old(tracked) && disk.temps == old(disk.temps) && disk.state == old(disk.state) && old(history) <= history
        invariant keys <= old(disk.entries).Keys && Within(disk.entries, old(disk.entries))
        invariant forall k :: k in old(disk.entries) ==>
                    (k in disk.entries <==> k in keys || old(disk.entries)[k].len >= HEADER_LEN)
        decreases keys
      {
        var k :| k in keys;
        assert tracked && disk.state.Clean? ==> disk.entries[k].len >= HEADER_LEN by { assert tracked ==> Safe(cap, history[|history| - 1]); }
        if disk.entries[k].len < HEADER_LEN {
          RemoveFile(k);
        }
        keys := keys - {k};
      }
      WholeIs(old(disk.entries), disk.entries);
    }

    /**
     `evict`: scan the entries, and while they exceed the cap remove the oldest.  A clean cache is
     within its cap, so no crash in between leaves a clean record that is wrong.
     */
    method Evict() returns (total: nat, stamp: nat)
      requires Steady()
      modifies this
      ensures Steady() && tracked == old(tracked) && disk.temps == old(disk.temps) && disk.state == old(disk.state) && old(history) <= history
      ensures EvictsOldest(WholeEntries(old(disk.entries)), disk.entries, cap) && AllWhole(disk.entries)
      ensures total == SumLen(disk.entries) && StampsAtMost(disk.entries, stamp)
      ensures NewestStamp(WholeEntries(old(disk.entries)), stamp)
    {
      hide *;
      CleanIsWhole();
      RemoveShort();
      var keys: seq<Key>;
      keys, total, stamp := Scan(disk.entries);
      ghost var before := disk.entries;
      NewestBounds(before, stamp);
      if total <= cap {
        NothingToEvict(before, cap);
        WholeAgain(old(disk.entries));
        return;
      }
      PairsInDomain(disk.entries, keys);
      var queue := SortDedup(OlderThan, Pairs(disk.entries, keys));
      QueueIs(before, keys);
      AllRemain(before, queue);
      var i := 0;
      while i < |queue| && total > cap
        invariant Steady() && tracked == old(tracked) && disk.temps == old(disk.temps) && disk.state == old(disk.state) && old(history) <= history
        invariant tracked ==> disk.state == Dirty
        invariant i <= |queue| && total == SumLen(disk.entries)
        invariant Remaining(before, queue, i, disk.entries)
        invariant i > 0 ==> queue[i - 1].1 in before && total + before[queue[i - 1].1].len > cap
      {
        NextInQueue(before, queue, i, disk.entries);
        SumRemove(disk.entries, queue[i].1);
        total := total - disk.entries[queue[i].1].len;
        RemoveFile(queue[i].1);
        i := i + 1;
      }
      QueueDone(before, queue, i, disk.entries, cap, total);
      WholeAgain(old(disk.entries));
      StampsStay(before, queue, i, disk.entries, stamp);
    }

    /** A clean cache is within its cap even after debris is removed, because it has none. */
    lemma CleanIsWhole()
      requires Steady()
      ensures tracked && disk.state.Clean? ==> WholeEntries(disk.entries) == disk.entries && SumLen(disk.entries) <= cap
    {
      assert tracked ==> Safe(cap, history[|history| - 1]);
      assert tracked && disk.state.Clean? ==> WholeEntries(disk.entries) == disk.entries;
    }

    /** `read_state`: a record that is not clean is rebuilt from a scan. */
    method ReadState() returns (total: nat, stamp: nat)
      requires Sound()
      modifies this
      ensures Sound() && disk.state == Clean(total, stamp) && old(history) <= history
      ensures old(disk.state).Clean? ==> disk == old(disk)
      ensures old(disk.state) == Dirty ==> EvictsOldest(WholeEntries(old(disk.entries)), disk.entries, cap)
      ensures RecoveredStamp(old(disk), stamp)
    {
      if disk.state.Clean? {
        return disk.state.total, disk.state.stamp;
      }
      RemoveTemps();
      total, stamp := Evict();
      assert SumLen(disk.entries) <= cap;
      WriteState(Clean(total, stamp));
    }

    lemma CleanFacts()
      requires Sound() && disk.state.Clean?
      ensures disk.temps == 0 && disk.state.total == SumLen(disk.entries) <= cap
      ensures StampsAtMost(disk.entries, disk.state.stamp) && AllWhole(disk.entries)
    {
      assert Safe(cap, history[|history| - 1]);
    }

    /**
     `open`: drop temporary files, evict to the cap, rewrite the record, whatever the directory holds.
     When its record is true for this cap, or dirty, no crash on the way leaves a wrong one either.
     */
    constructor Open(cap: nat, found: Disk)
      requires cap < U64_LIMIT
      ensures Sound() && this.cap == cap && disk.state.Clean?
      ensures EvictsOldest(WholeEntries(found.entries), disk.entries, cap)
      ensures Safe(cap, found) ==> history[0] == found
    {
      this.cap, disk, history, tracked := cap, found, [found], Safe(cap, found);
      new;
      RemoveTemps();
      var total, stamp := Evict();
      assert SumLen(disk.entries) <= cap;
      assert disk.temps == 0;
      WriteState(Clean(total, stamp));
      if !tracked {
        history, tracked := [disk], true;
      }
    }

    /**
     `get_body`: only an entry that is on disk and checks out is handed out. A damaged one is removed and
     its bytes leave the account, unless recovery of a dirty record already dropped it: then the removal
     fails and the record stays dirty.
     */
    method GetBody(key: Key) returns (r: Result<Option<Entry>>)
      requires Sound()
      modifies this
      ensures Sound() && old(history) <= history
      ensures key in old(disk.entries) && old(disk.entries)[key].valid ==> r == Ok(Some(old(disk.entries)[key])) && disk == old(disk)
      ensures key !in old(disk.entries) ==> r == Ok(None) && disk == old(disk)
      ensures r.Ok? && r.value.Some? ==>
                key in old(disk.entries) && old(disk.entries)[key].valid && r.value.value == old(disk.entries)[key]
      ensures key in old(disk.entries) && !old(disk.entries)[key].valid ==>
                && r == (if Drops(cap, old(disk), key) then Err else Ok(None))
                && disk.entries == RecoveredEntries(cap, old(disk)) - {key}
                && (if r.Err? then disk.state == Dirty else disk.state.Clean? && RecoveredStamp(old(disk), disk.state.stamp))
    {
      hide *;
      if key !in disk.entries {
        return Ok(None);
      }
      if disk.entries[key].valid {
        return Ok(Some(disk.entries[key]));
      }
      ghost var found := disk;
      var len := disk.entries[key].len;
      var total, stamp := ReadState();
      CleanFacts();
      ghost var before := disk.entries;
      RecoveryIs(found, before, cap);
      RecoveredIs(found, before, cap);
      DropsIff(found, before, cap, key);
      Known();
      WriteState(Dirty);
      DirtyIsSafe(cap, disk);
      Known();
      if key !in disk.entries {
        assert before - {key} == before;
        return Err;
      }
      SumRemove(before, key);
      SameEntry(found, before, cap, key);
      RemoveFile(key);
      Known();
      SameFile(before, key, len, stamp);
      RecordIs(cap, disk.(state := Clean(if total >= len then total - len else 0, stamp)));
      WriteState(Clean(if total >= len then total - len else 0, stamp));
      return Ok(None);
    }

    /**
     `put_body`, with the entries that recovery left as a ghost result.  The old size of the entry is
     read before a dirty record is recovered, so a recovery that evicts this very entry leaves its
     size in the account: the record is then sound if and only if that did not happen.
     */
    method PutBody(key: Key, bodyLen: nat) returns (r: Result<bool>, ghost recovered: map<Key, Entry>)
      requires Sound()
      modifies this
      ensures old(history) <= history
      ensures HEADER_LEN + bodyLen > cap ==> r == Ok(false) && disk == old(disk) && Sound()
      ensures HEADER_LEN + bodyLen <= cap ==> recovered == RecoveredEntries(cap, old(disk)) && r != Ok(false)
      ensures HEADER_LEN + bodyLen <= cap ==> (r.Err? <==> Exhausted(cap, old(disk), key, HEADER_LEN + bodyLen))
      ensures r == Ok(true) ==> disk.state.Clean? && Stored(old(disk), disk, key, HEADER_LEN + bodyLen)
      ensures HEADER_LEN + bodyLen <= cap && r.Ok? && !Sound() ==>
                key in disk.entries && disk.entries == recovered[key := disk.entries[key]]
      ensures HEADER_LEN + bodyLen <= cap && r.Ok? ==> Recovery(old(disk), recovered, cap)
      ensures HEADER_LEN + bodyLen <= cap && r.Ok? ==> (Sound() <==> !WillMiscount(cap, old(disk), key, HEADER_LEN + bodyLen))
      ensures r.Err? ==> Sound()
      ensures HEADER_LEN + bodyLen <= cap && r.Ok? && Sound() ==>
                disk.state.Clean? && Inserted(recovered, disk.entries, key, HEADER_LEN + bodyLen, cap)
    {
      hide *;
      var newLen := HEADER_LEN + bodyLen;
      recovered := disk.entries;
      if newLen > cap {
        return Ok(false), recovered;
      }
      ghost var found := disk;
      var oldLen := if key in disk.entries then disk.entries[key].len else 0;
      var total, stamp := ReadState();
      recovered := disk.entries;
      CleanFacts();
      RecoveryIs(found, recovered, cap);
      RecoveredIs(found, recovered, cap);
      ExhaustedIs(cap, found, recovered, key, newLen, stamp);
      Known();
      WriteState(Dirty);
      DirtyIsSafe(cap, disk);
      Known();
      ghost var newest := stamp;
      stamp := stamp + 1;
      if stamp >= U64_LIMIT {
        return Err, recovered;
      }
      ghost var created := Entry(stamp, newLen, true);
      StoreFile(key, Entry(stamp, newLen, true));
      ghost var after := disk.entries;
      Known();
      if total < oldLen || total - oldLen + newLen >= U64_LIMIT {
        return Err, recovered;
      }
      InsertSum(recovered, key, created);
      InsertFacts(recovered, key, created, cap);
      total := total - oldLen + newLen;
      if total > cap {
        total, stamp := Evict();
        Known();
        StoredIsWhole(recovered, key, created);
        EvictInserts(recovered, after, disk.entries, key, created, cap);
        NewestIsStored(recovered, key, created, stamp);
      }
      ghost var before := disk.entries;
      MiscountIff(found, recovered, key, oldLen, newLen, cap);
      MiscountsIff(cap, found, recovered, key, newLen);
      RecordIs(cap, disk.(state := Clean(total, stamp)));
      WriteState(Clean(total, stamp));
      IsStored(found, disk, key, newLen, newest);
      return Ok(true), recovered;
    }

    /** Write a temporary file, drop the old file of that name, rename into place. */
    method StoreFile(key: Key, e: Entry)
      requires Sound() && disk.state == Dirty
      modifies this
      ensures Sound() && disk == old(disk).(entries := old(disk).entries[key := e]) && old(history) <= history
    {
      Write(disk.(temps := disk.temps + 1));
      if key in disk.entries {
        RemoveFile(key);
      }
      Write(disk.(temps := disk.temps - 1, entries := disk.entries[key := e]));
    }
  }

  /** What `read_state` makes of the entries it finds. */
  ghost predicate Recovery(found: Disk, recovered: map<Key, Entry>, cap: nat) {
    if found.state.Clean? then recovered == found.entries else EvictsOldest(WholeEntries(found.entries), recovered, cap)
  }

  /** Recovery evicted the entry being replaced, and its size is still taken off the total. */
  ghost predicate Miscounts(cap: nat, found: Disk, recovered: map<Key, Entry>, key: Key, newLen: nat) {
    && key in found.entries && key !in recovered
    && 0 < found.entries[key].len <= SumLen(recovered)
    && SumLen(recovered) - found.entries[key].len + newLen <= cap
  }

  /** The entries from `key` on in eviction order, `key` included. */
  ghost function FromOn(m: map<Key, Entry>, key: Key): map<Key, Entry> {
    map k | k in m && !OlderThan(Rank(m, k), Rank(m, key)) :: m[k]
  }

  /** The entries that fit the cap together with everything newer. */
  ghost function Survivors(m: map<Key, Entry>, cap: nat): map<Key, Entry> {
    map k | k in m && SumLen(FromOn(m, k)) <= cap :: m[k]
  }

  /** Eviction keeps an entry exactly when it and everything newer fit the cap. */
  lemma EvictionKeeps(before: map<Key, Entry>, after: map<Key, Entry>, cap: nat)
    requires EvictsOldest(before, after, cap)
    ensures after == Survivors(before, cap)
  {
    forall k | k in before ensures k in after <==> SumLen(FromOn(before, k)) <= cap {
      KeptIff(before, after, cap, k);
    }
    hide SumLen, EvictsOldest;
    assert Within(after, before) by { EvictsWithin(before, after, cap); }
    assert after.Keys == Survivors(before, cap).Keys;
  }

  lemma EvictsWithin(before: map<Key, Entry>, after: map<Key, Entry>, cap: nat)
    requires EvictsOldest(before, after, cap)
    ensures Within(after, before) && SumLen(after) <= cap
  {
  }

  lemma KeptIff(before: map<Key, Entry>, after: map<Key, Entry>, cap: nat, key: Key)
    requires EvictsOldest(before, after, cap) && key in before
    ensures key in after <==> SumLen(FromOn(before, key)) <= cap
  {
    hide SumLen;
    if key in after {
      assert Within(FromOn(before, key), after);
      SumWithin(FromOn(before, key), after);
    } else {
      var r :| r in before && r !in after && SumLen(after) + before[r].len > cap
        && forall q :: q in before && q !in after ==> q == r || OlderThan(Rank(before, q), Rank(before, r));
      SumAdd(after, r, before[r]);
      assert Within(after[r := before[r]], FromOn(before, key));
      SumWithin(after[r := before[r]], FromOn(before, key));
    }
  }

  /** What recovery leaves of the disk it finds. */
  ghost function RecoveredEntries(cap: nat, found: Disk): map<Key, Entry> {
    if found.state.Clean? then found.entries else Survivors(WholeEntries(found.entries), cap)
  }

  /** The stamp recovery returns: the recorded one, or the newest of all whole entries found. */
  ghost predicate RecoveredStamp(found: Disk, stamp: nat) {
    if found.state.Clean? then stamp == found.state.stamp else NewestStamp(WholeEntries(found.entries), stamp)
  }

  /** A number does not fit 64 bits, or the old size exceeds the total it is taken from. */
  ghost predicate Exhausted(cap: nat, found: Disk, key: Key, newLen: nat) {
    var oldLen := if key in found.entries then found.entries[key].len else 0;
    || (exists stamp: nat :: RecoveredStamp(found, stamp) && stamp + 1 >= U64_LIMIT)
    || RecoveredTotal(cap, found) < oldLen
    || RecoveredTotal(cap, found) - oldLen + newLen >= U64_LIMIT
  }

  /** The new entry carries the next stamp, and so does the record. */
  ghost predicate Stored(found: Disk, d: Disk, key: Key, newLen: nat) {
    && d.state.Clean? && d.state.stamp > 0 && RecoveredStamp(found, d.state.stamp - 1)
    && key in d.entries && d.entries[key] == Entry(d.state.stamp, newLen, true)
  }

  lemma IsStored(found: Disk, d: Disk, key: Key, newLen: nat, newest: nat)
    requires RecoveredStamp(found, newest) && d.state.Clean? && d.state.stamp == newest + 1
    requires key in d.entries && d.entries[key] == Entry(newest + 1, newLen, true)
    ensures Stored(found, d, key, newLen)
  {
  }

  lemma NewestIsStored(m: map<Key, Entry>, key: Key, e: Entry, stamp: nat)
    requires NewestStamp(m[key := e], stamp) && e.stamp > 0 && StampsAtMost(m, e.stamp - 1)
    ensures stamp == e.stamp
  {
    assert NewestStamp(m[key := e], e.stamp) by { assert key in m[key := e]; }
    OneNewest(m[key := e], stamp, e.stamp);
  }

  lemma RecoveredIs(found: Disk, recovered: map<Key, Entry>, cap: nat)
    requires Recovery(found, recovered, cap)
    ensures recovered == RecoveredEntries(cap, found)
  {
    hide SumLen, OlderThan;
    if found.state == Dirty {
      EvictionKeeps(WholeEntries(found.entries), recovered, cap);
    }
  }

  lemma ExhaustedIs(cap: nat, found: Disk, recovered: map<Key, Entry>, key: Key, newLen: nat, stamp: nat)
    requires Recovery(found, recovered, cap) && RecoveredStamp(found, stamp)
    ensures var oldLen := if key in found.entries then found.entries[key].len else 0;
      Exhausted(cap, found, key, newLen) <==>
        stamp + 1 >= U64_LIMIT || SumLen(recovered) < oldLen || SumLen(recovered) - oldLen + newLen >= U64_LIMIT
  {
    RecoveredIs(found, recovered, cap);
    hide SumLen, Survivors, WholeEntries, NewestStamp;
    forall other: nat | RecoveredStamp(found, other) ensures other == stamp {
      if found.state == Dirty {
        OneNewest(WholeEntries(found.entries), other, stamp);
      }
    }
  }

  /** What recovery keeps, it keeps unchanged. */
  lemma SameEntry(found: Disk, recovered: map<Key, Entry>, cap: nat, key: Key)
    requires Recovery(found, recovered, cap) && key in recovered
    ensures key in found.entries && recovered[key] == found.entries[key]
  {
    hide SumLen, OlderThan;
  }

  /** What recovery drops, told by the disk it finds: debris, and what does not fit with everything newer. */
  ghost predicate Drops(cap: nat, found: Disk, key: Key) {
    && found.state == Dirty && key in found.entries
    && (found.entries[key].len < HEADER_LEN || SumLen(FromOn(WholeEntries(found.entries), key)) > cap)
  }

  /** The total that `read_state` returns for the disk it finds. */
  ghost function RecoveredTotal(cap: nat, found: Disk): nat {
    if found.state.Clean? then SumLen(found.entries) else SumLen(Survivors(WholeEntries(found.entries), cap))
  }

  /** A put that replaces `key` leaves a wrong record: told by the disk before the put. */
  ghost predicate WillMiscount(cap: nat, found: Disk, key: Key, newLen: nat) {
    && Drops(cap, found, key) && 0 < found.entries[key].len <= RecoveredTotal(cap, found)
    && RecoveredTotal(cap, found) - found.entries[key].len + newLen <= cap
  }

  lemma DropsIff(found: Disk, recovered: map<Key, Entry>, cap: nat, key: Key)
    requires Recovery(found, recovered, cap) && key in found.entries
    ensures key !in recovered <==> Drops(cap, found, key)
    ensures SumLen(recovered) == RecoveredTotal(cap, found)
  {
    hide SumLen, OlderThan;
    if found.state == Dirty {
      EvictionKeeps(WholeEntries(found.entries), recovered, cap);
    }
  }

  lemma MiscountsIff(cap: nat, found: Disk, recovered: map<Key, Entry>, key: Key, newLen: nat)
    requires Recovery(found, recovered, cap)
    ensures Miscounts(cap, found, recovered, key, newLen) <==> WillMiscount(cap, found, key, newLen)
  {
    if key in found.entries {
      DropsIff(found, recovered, cap, key);
    }
  }

  /** The new entry is in, newest of all, and only the oldest others made room for it. */
  ghost predicate Inserted(before: map<Key, Entry>, after: map<Key, Entry>, key: Key, newLen: nat, cap: nat) {
    && key in after && after[key].len == newLen && after[key].valid
    && (forall k :: k in before && k != key ==> before[k].stamp < after[key].stamp)
    && EvictsOldest(before[key := after[key]], after, cap)
  }

  lemma RecoveryIs(found: Disk, recovered: map<Key, Entry>, cap: nat)
    requires found.state.Clean? ==> recovered == found.entries
    requires found.state == Dirty ==> EvictsOldest(WholeEntries(found.entries), recovered, cap)
    ensures Recovery(found, recovered, cap)
  {
  }

  lemma InsertSum(m: map<Key, Entry>, key: Key, e: Entry)
    ensures SumLen(m[key := e]) == SumLen(m) - (if key in m then m[key].len else 0) + e.len
    ensures key in m ==> m[key].len <= SumLen(m)
  {
    if key in m {
      SumRemove(m, key);
      SumAdd(m - {key}, key, e);
      assert (m - {key})[key := e] == m[key := e];
    } else {
      SumAdd(m, key, e);
    }
  }

  lemma InsertFacts(m: map<Key, Entry>, key: Key, e: Entry, cap: nat)
    requires e.stamp > 0 && StampsAtMost(m, e.stamp - 1) && AllWhole(m) && e.len >= HEADER_LEN && e.valid
    ensures StampsAtMost(m[key := e], e.stamp) && AllWhole(m[key := e])
    ensures SumLen(m[key := e]) <= cap ==> Inserted(m, m[key := e], key, e.len, cap)
  {
    assert m[key := e][key := e] == m[key := e];
  }

  lemma StoredIsWhole(m: map<Key, Entry>, key: Key, e: Entry)
    requires AllWhole(m[key := e])
    ensures WholeEntries(m[key := e]) == m[key := e]
  {
  }

  lemma EvictInserts(m: map<Key, Entry>, after: map<Key, Entry>, kept: map<Key, Entry>, key: Key, e: Entry, cap: nat)
    requires after == m[key := e] && EvictsOldest(after, kept, cap) && e.len <= cap && e.valid
    requires e.stamp > 0 && StampsAtMost(m, e.stamp - 1)
    ensures Inserted(m, kept, key, e.len, cap) && SumLen(kept) <= cap && key in kept && kept[key] == e
  {
    NewestSurvives(after, kept, cap, key);
  }

  /** The account after the update is off exactly when the old size was counted for a file already gone. */
  lemma MiscountIff(found: Disk, recovered: map<Key, Entry>, key: Key, oldLen: nat, newLen: nat, cap: nat)
    requires Recovery(found, recovered, cap) && oldLen == (if key in found.entries then found.entries[key].len else 0)
    requires oldLen <= SumLen(recovered)
    ensures key in recovered ==> recovered[key].len == oldLen
    ensures Miscounts(cap, found, recovered, key, newLen) <==>
              oldLen != (if key in recovered then recovered[key].len else 0) && SumLen(recovered) - oldLen + newLen <= cap
  {
  }

  lemma RecordIs(cap: nat, d: Disk)
    requires d.state.Clean? && d.temps == 0 && StampsAtMost(d.entries, d.state.stamp) && AllWhole(d.entries)
    ensures Safe(cap, d) <==> d.state.total == SumLen(d.entries) && d.state.total <= cap
  {
  }

  /** A clean record, or one whose entry is absent, is never miscounted. */
  lemma CleanNeverMiscounts(cap: nat, found: Disk, recovered: map<Key, Entry>, key: Key, newLen: nat)
    requires Recovery(found, recovered, cap) && (found.state.Clean? || key !in found.entries)
    ensures !Miscounts(cap, found, recovered, key, newLen)
  {
  }

  lemma {:induction false} SumWithin(a: map<Key, Entry>, b: map<Key, Entry>)
    requires Within(a, b)
    ensures SumLen(a) <= SumLen(b)
    decreases |a|
  {
    if a != map[] {
      var k :| k in a;
      SumRemove(a, k);
      SumRemove(b, k);
      SumWithin(a - {k}, b - {k});
    }
  }

  /** What recovery keeps is determined by what it finds. */
  lemma EvictionIsDetermined(before: map<Key, Entry>, a: map<Key, Entry>, b: map<Key, Entry>, cap: nat)
    requires EvictsOldest(before, a, cap) && EvictsOldest(before, b, cap)
    ensures a == b
  {
    EvictionCovers(before, a, b, cap);
    EvictionCovers(before, b, a, cap);
    hide EvictsOldest;
    assert a.Keys == b.Keys;
  }

  lemma EvictionCovers(before: map<Key, Entry>, a: map<Key, Entry>, b: map<Key, Entry>, cap: nat)
    requires EvictsOldest(before, a, cap) && EvictsOldest(before, b, cap)
    ensures Within(a, before) && Within(b, before) && b.Keys <= a.Keys
  {
    hide SumLen;
    if x :| x in b && x !in a {
      forall y | y in a ensures y in b {
        assert OlderThan(Rank(before, x), Rank(before, y));
      }
      var r :| r in before && r !in a && SumLen(a) + before[r].len > cap
        && forall q :: q in before && q !in a ==> q == r || OlderThan(Rank(before, q), Rank(before, r));
      assert r in b;
      SumAdd(a, r, before[r]);
      SumWithin(a[r := before[r]], b);
    }
  }

  /**
   A concrete miscount: three files exceed the cap after a crash, the oldest is being replaced,
   recovery evicts it, and the record then says 116 bytes for 216 on disk, over the cap of 200.
   */
  lemma RecoveryCanMiscount() returns (found: Disk, recovered: map<Key, Entry>)
    ensures Safe(200, found) && Recovery(found, recovered, 200) && Miscounts(200, found, recovered, 1, HEADER_LEN)
    ensures WillMiscount(200, found, 1, HEADER_LEN)
    ensures SumLen(recovered) - found.entries[1].len + HEADER_LEN == 116 && SumLen(recovered) + HEADER_LEN == 216
  {
    var e1, e2, e3 := Entry(1, 100, true), Entry(2, 100, true), Entry(3, 60, true);
    found := Disk(map[1 := e1, 2 := e2, 3 := e3], 0, Dirty);
    recovered := map[2 := e2, 3 := e3];
    assert WholeEntries(found.entries) == found.entries;
    assert SumLen(map[]) == 0;
    SumAdd(map[], 2, e2);
    SumAdd(map[2 := e2], 3, e3);
    assert map[][2 := e2] == map[2 := e2] && map[2 := e2][3 := e3] == recovered;
    assert 1 in found.entries && 1 !in recovered && SumLen(recovered) + found.entries[1].len > 200;
    MiscountsIff(200, found, recovered, 1, HEADER_LEN);
  }

  lemma SameFile(m: map<Key, Entry>, key: Key, len: nat, stamp: nat)
    ensures StampsAtMost(m, stamp) ==> StampsAtMost(m - {key}, stamp)
    ensures AllWhole(m) ==> AllWhole(m - {key})
  {
  }

  lemma WholeAgain(m: map<Key, Entry>)
    ensures AllWhole(WholeEntries(m))
    ensures forall after, cap :: EvictsOldest(WholeEntries(m), after, cap) ==> AllWhole(after)
  {
  }

  lemma NothingToEvict(before: map<Key, Entry>, cap: nat)
    requires SumLen(before) <= cap
    ensures EvictsOldest(before, before, cap)
  {
  }

  lemma PairsInDomain(m: map<Key, Entry>, keys: seq<Key>)
    requires forall k :: k in keys <==> k in m
    ensures forall k :: k in keys ==> k in m
  {
  }

  lemma AllRemain(before: map<Key, Entry>, queue: seq<(nat, Key)>)
    requires Queue(before, queue)
    ensures Remaining(before, queue, 0, before)
  {
  }

  lemma StampsStay(before: map<Key, Entry>, queue: seq<(nat, Key)>, i: nat, now: map<Key, Entry>, stamp: nat)
    requires Remaining(before, queue, i, now) && StampsAtMost(before, stamp)
    ensures StampsAtMost(now, stamp)
  {
  }

  function WholeEntries(m: map<Key, Entry>): map<Key, Entry> {
    map k | k in m && m[k].len >= HEADER_LEN :: m[k]
  }

  lemma WholeIs(before: map<Key, Entry>, after: map<Key, Entry>)
    requires Within(after, before) && forall k :: k in before ==> (k in after <==> before[k].len >= HEADER_LEN)
    ensures after == WholeEntries(before)
  {
  }

  /** One directory scan: the names, the total size, the newest stamp. */
  method Scan(m: map<Key, Entry>) returns (keys: seq<Key>, total: nat, stamp: nat)
    ensures (forall k :: k in keys <==> k in m) && total == SumLen(m) && NewestStamp(m, stamp)
  {
    keys, total, stamp := [], 0, 0;
    var left := m;
    while left != map[]
      invariant Within(left, m) && total + SumLen(left) == SumLen(m)
      invariant forall k :: k in m ==> (k in keys <==> k !in left) && (k in keys ==> m[k].stamp <= stamp)
      invariant forall k :: k in keys ==> k in m
      invariant if keys == [] then stamp == 0 && left == m else exists k :: k in keys && m[k].stamp == stamp
      decreases |left|
    {
      var k :| k in left;
      SumRemove(left, k);
      keys := keys + [k];
      total := total + left[k].len;
      if left[k].stamp > stamp {
        stamp := left[k].stamp;
      }
      left := left - {k};
    }
  }

  /** The queue is oldest first and lists every entry once. */
  ghost predicate Queue(before: map<Key, Entry>, queue: seq<(nat, Key)>) {
    && StrictlySorted(OlderThan, queue)
    && (forall i :: 0 <= i < |queue| ==> queue[i].1 in before && queue[i] == Rank(before, queue[i].1))
    && (forall k :: k in before ==> Rank(before, k) in queue)
  }

  lemma QueueIs(before: map<Key, Entry>, keys: seq<Key>)
    requires forall k :: k in keys <==> k in before
    ensures Queue(before, SortDedup(OlderThan, Pairs(before, keys)))
  {
    var pairs := Pairs(before, keys);
    var queue := SortDedup(OlderThan, pairs);
    OlderTotal();
    SortDedupCorrect(OlderThan, pairs);
    forall i | 0 <= i < |queue| ensures queue[i].1 in before && queue[i] == Rank(before, queue[i].1) {
      assert queue[i] in pairs;
    }
    forall k | k in before ensures Rank(before, k) in queue {
      var i :| 0 <= i < |keys| && keys[i] == k;
      assert pairs[i] in pairs;
    }
  }

  /** The first `i` queued entries are gone, the others are still there. */
  ghost predicate Remaining(before: map<Key, Entry>, queue: seq<(nat, Key)>, i: nat, now: map<Key, Entry>) {
    && Queue(before, queue) && i <= |queue| && Within(now, before)
    && forall n :: 0 <= n < |queue| ==> (queue[n].1 in now <==> i <= n)
  }

  lemma NextInQueue(before: map<Key, Entry>, queue: seq<(nat, Key)>, i: nat, now: map<Key, Entry>)
    requires Remaining(before, queue, i, now) && i < |queue|
    ensures queue[i].1 in now && Remaining(before, queue, i + 1, now - {queue[i].1})
    ensures queue[i].1 in before && now[queue[i].1] == before[queue[i].1]
  {
    forall n | 0 <= n < |queue| && n != i ensures queue[n].1 != queue[i].1 {
      assert n < i ==> OlderThan(queue[n], queue[i]);
      assert i < n ==> OlderThan(queue[i], queue[n]);
    }
  }

  lemma AllGone(before: map<Key, Entry>, queue: seq<(nat, Key)>, now: map<Key, Entry>)
    requires Remaining(before, queue, |queue|, now)
    ensures now == map[]
  {
    forall k | k in before ensures k !in now {
      var n := QueueHas(before, queue, k);
    }
  }

  lemma QueueHas(before: map<Key, Entry>, queue: seq<(nat, Key)>, k: Key) returns (n: nat)
    requires Queue(before, queue) && k in before
    ensures n < |queue| && queue[n].1 == k && queue[n] == Rank(before, k)
  {
    n :| 0 <= n < |queue| && queue[n] == Rank(before, k);
  }

  lemma QueueDone(before: map<Key, Entry>, queue: seq<(nat, Key)>, i: nat, now: map<Key, Entry>, cap: nat, total: nat)
    requires Remaining(before, queue, i, now) && total == SumLen(now) && (i == |queue| || total <= cap)
    requires 0 < i ==> queue[i - 1].1 in before && total + before[queue[i - 1].1].len > cap
    ensures EvictsOldest(before, now, cap)
  {
    hide SumLen, Rank, OlderThan;
    if i == |queue| {
      AllGone(before, queue, now);
      assert SumLen(map[]) == 0 by { EmptySum(); }
    }
    forall r, k | r in before && r !in now && k in now ensures OlderThan(Rank(before, r), Rank(before, k)) {
      var n := QueueHas(before, queue, r);
      var m := QueueHas(before, queue, k);
      assert OlderThan(queue[n], queue[m]);
    }
    if i > 0 {
      var last := queue[i - 1].1;
      assert last !in now;
      forall q | q in before && q !in now ensures q == last || OlderThan(Rank(before, q), Rank(before, last)) {
        var n := QueueHas(before, queue, q);
        assert n < i - 1 ==> OlderThan(queue[n], queue[i - 1]);
      }
    } else {
      NothingRemoved(before, queue, now);
    }
  }

  lemma EmptySum()
    ensures SumLen(map[]) == 0
  {
  }

  lemma NothingRemoved(before: map<Key, Entry>, queue: seq<(nat, Key)>, now: map<Key, Entry>)
    requires Remaining(before, queue, 0, now)
    ensures now == before
  {
    forall k | k in before ensures k in now {
      var n := QueueHas(before, queue, k);
    }
  }
}
