/**
 Single-flight block loading (`LoadingClaims` and `load_blocks_with` in crates/index/src/pack.rs):
 every critical section under the block-table lock is one atomic step of a thread.
 */
module Flight {
  type BlockId = nat

  datatype Entry = Loading | Ready

  datatype Outcome = Complete | LoadError | MissingBlock

  /**
   One call of `load_blocks_with`.  A `Loader` has inserted `Loading` for its claim and still has to
   decode `todo`; a `Dropping` thread is about to run the guard's `drop`.
   */
  datatype Thread =
    | Trying
    | Asleep
    | Loader(claim: set<BlockId>, todo: set<BlockId>)
    | Dropping(claim: set<BlockId>, outcome: Outcome)
    | Returned(outcome: Outcome)

  /** `wants[i]` is what thread `i` was asked to load; `decodes` counts the blocks handed to `store_block` successfully. */
  datatype State = State(wants: seq<set<BlockId>>, threads: seq<Thread>, entries: map<BlockId, Entry>, decodes: map<BlockId, nat>)

  predicate IsReady(entries: map<BlockId, Entry>, b: BlockId) { b in entries && entries[b] == Ready }

  predicate IsLoading(entries: map<BlockId, Entry>, b: BlockId) { b in entries && entries[b] == Loading }

  predicate AllReady(entries: map<BlockId, Entry>, ids: set<BlockId>) {
    forall b :: b in ids ==> IsReady(entries, b)
  }

  predicate AnyLoading(entries: map<BlockId, Entry>, ids: set<BlockId>) {
    exists b :: b in ids && IsLoading(entries, b)
  }

  function Decodes(s: State, b: BlockId): nat {
    if b in s.decodes then s.decodes[b] else 0
  }

  // ---------------------------------------------------------------------------------------------
  // The steps

  function Unclaimed(entries: map<BlockId, Entry>, ids: set<BlockId>): set<BlockId> {
    set b | b in ids && b !in entries
  }

  function Claim(entries: map<BlockId, Entry>, ids: set<BlockId>): map<BlockId, Entry> {
    entries + (map b | b in ids :: Loading)
  }

  /** The guard's `drop` removes the claimed blocks that are still loading. */
  function Release(entries: map<BlockId, Entry>, ids: set<BlockId>): map<BlockId, Entry> {
    map b | b in entries && !(b in ids && entries[b] == Loading) :: entries[b]
  }

  /** `notify_all`. */
  function WakeAll(threads: seq<Thread>): (r: seq<Thread>)
    ensures |r| == |threads|
    ensures forall k :: 0 <= k < |r| ==> r[k] == if threads[k] == Asleep then Trying else threads[k]
  {
    if threads == [] then []
    else
      var last := threads[|threads| - 1];
      WakeAll(threads[..|threads| - 1]) + [if last == Asleep then Trying else last]
  }

  function Put(s: State, i: nat, t: Thread): State
    requires i < |s.threads|
  {
    s.(threads := s.threads[i := t])
  }

  /** The head of the loop: return, sleep, or claim every block nobody has. */
  function Try(s: State, i: nat): State
    requires i < |s.threads| == |s.wants|
  {
    if AllReady(s.entries, s.wants[i]) then Put(s, i, Returned(Complete))
    else if AnyLoading(s.entries, s.wants[i]) then Put(s, i, Asleep)
    else
      var claim := Unclaimed(s.entries, s.wants[i]);
      Put(s, i, Loader(claim, claim)).(entries := Claim(s.entries, claim))
  }

  /** A claimed block was decoded and stored. */
  function Publish(s: State, i: nat, b: BlockId): State
    requires i < |s.threads| && s.threads[i].Loader?
  {
    var t := s.threads[i];
    Put(s, i, Loader(t.claim, t.todo - {b}))
      .(entries := if IsLoading(s.entries, b) then s.entries[b := Ready] else s.entries,
        decodes := s.decodes[b := Decodes(s, b) + 1])
  }

  /** An error or a panic while fetching, decoding or storing. */
  function Fail(s: State, i: nat): State
    requires i < |s.threads| && s.threads[i].Loader?
  {
    Put(s, i, Dropping(s.threads[i].claim, LoadError))
  }

  /** The completeness check after the last block. */
  function Check(s: State, i: nat): State
    requires i < |s.threads| == |s.wants| && s.threads[i].Loader?
  {
    Put(s, i, Dropping(s.threads[i].claim, if AllReady(s.entries, s.wants[i]) then Complete else MissingBlock))
  }

  function Drop(s: State, i: nat): State
    requires i < |s.threads| && s.threads[i].Dropping?
  {
    s.(threads := WakeAll(s.threads)[i := Returned(s.threads[i].outcome)],
       entries := Release(s.entries, s.threads[i].claim))
  }

  datatype Action = DoTry | DoPublish(b: BlockId) | DoFail | DoCheck | DoDrop | SpuriousWake

  predicate Enabled(s: State, i: nat, a: Action)
    requires |s.threads| == |s.wants|
  {
    && i < |s.threads|
    && match a {
         case DoTry => s.threads[i].Trying?
         case DoPublish(b) => s.threads[i].Loader? && b in s.threads[i].todo
         case DoFail => s.threads[i].Loader?
         case DoCheck => s.threads[i].Loader? && s.threads[i].todo == {}
         case DoDrop => s.threads[i].Dropping?
         case SpuriousWake => s.threads[i].Asleep?
       }
  }

  function Apply(s: State, i: nat, a: Action): State
    requires |s.threads| == |s.wants| && Enabled(s, i, a)
  {
    match a
    case DoTry => Try(s, i)
    case DoPublish(b) => Publish(s, i, b)
    case DoFail => Fail(s, i)
    case DoCheck => Check(s, i)
    case DoDrop => Drop(s, i)
    case SpuriousWake => Put(s, i, Trying)
  }

  ghost predicate Next(s: State, t: State) {
    |s.threads| == |s.wants| && exists i: nat, a :: Enabled(s, i, a) && t == Apply(s, i, a)
  }

  // ---------------------------------------------------------------------------------------------
  // The invariant

  function Held(t: Thread): set<BlockId> {
    if t.Loader? || t.Dropping? then t.claim else {}
  }

  /** What one thread's own state says about the table. */
  predicate ThreadOk(wants: set<BlockId>, t: Thread, entries: map<BlockId, Entry>) {
    match t
    case Trying => true
    case Asleep => true
    case Loader(claim, todo) =>
      && todo <= claim <= wants && AllReady(entries, wants - todo)
      && (forall b :: b in todo ==> IsLoading(entries, b))
    case Dropping(claim, outcome) =>
      && claim <= wants && (forall b :: b in claim ==> b in entries)
      && outcome != MissingBlock && (outcome == Complete ==> AllReady(entries, wants))
    case Returned(outcome) =>
      outcome != MissingBlock && (outcome == Complete ==> AllReady(entries, wants))
  }

  ghost predicate ThreadsOk(s: State)
    requires |s.threads| == |s.wants|
  {
    forall i :: 0 <= i < |s.threads| ==> ThreadOk(s.wants[i], s.threads[i], s.entries)
  }

  /** No block is claimed twice. */
  ghost predicate ClaimsDisjoint(threads: seq<Thread>) {
    forall i, j, b :: 0 <= i < |threads| && 0 <= j < |threads| && b in Held(threads[i]) && b in Held(threads[j]) ==> i == j
  }

  predicate HasHolder(threads: seq<Thread>, b: BlockId) {
    exists j :: 0 <= j < |threads| && b in Held(threads[j])
  }

  ghost predicate LoadingHeld(s: State) {
    forall b :: IsLoading(s.entries, b) ==> HasHolder(s.threads, b)
  }

  /** A live thread whose drop will wake the sleeper holds a block the sleeper wants. */
  predicate Awaits(threads: seq<Thread>, ids: set<BlockId>) {
    exists b :: b in ids && HasHolder(threads, b)
  }

  ghost predicate SleepersAwait(s: State)
    requires |s.threads| == |s.wants|
  {
    forall i :: 0 <= i < |s.threads| && s.threads[i].Asleep? ==> Awaits(s.threads, s.wants[i])
  }

  /** A block has been decoded once if it is ready, and never otherwise. */
  ghost predicate DecodedOnce(s: State) {
    forall b :: Decodes(s, b) == if IsReady(s.entries, b) then 1 else 0
  }

  ghost predicate Inv(s: State) {
    && |s.threads| == |s.wants|
    && ThreadsOk(s) && ClaimsDisjoint(s.threads) && LoadingHeld(s) && SleepersAwait(s) && DecodedOnce(s)
  }

  ghost predicate Init(s: State) {
    && |s.threads| == |s.wants| && s.entries == map[] && s.decodes == map[]
    && forall i :: 0 <= i < |s.threads| ==> s.threads[i] == Trying
  }

  lemma InitInv(s: State)
    requires Init(s)
    ensures Inv(s)
  {
  }

  /** Later tables keep every ready block. */
  ghost predicate KeepsReady(before: map<BlockId, Entry>, after: map<BlockId, Entry>) {
    forall b :: IsReady(before, b) ==> IsReady(after, b)
  }

  lemma AllReadyStays(before: map<BlockId, Entry>, after: map<BlockId, Entry>, ids: set<BlockId>)
    requires KeepsReady(before, after) && AllReady(before, ids)
    ensures AllReady(after, ids)
  {
  }

  /** A thread's own facts survive when ready blocks stay and no block it holds changes. */
  lemma ThreadStays(wants: set<BlockId>, t: Thread, before: map<BlockId, Entry>, after: map<BlockId, Entry>)
    requires ThreadOk(wants, t, before) && KeepsReady(before, after)
    requires forall b :: b in Held(t) && b in before ==> b in after && after[b] == before[b]
    ensures ThreadOk(wants, t, after)
  {
    hide AllReady, KeepsReady;
    match t
    case Loader(claim, todo) => AllReadyStays(before, after, wants - todo);
    case Dropping(claim, outcome) => if outcome == Complete { AllReadyStays(before, after, wants); }
    case Returned(outcome) => if outcome == Complete { AllReadyStays(before, after, wants); }
    case _ =>
  }

  /** Changing one thread keeps the other threads' holders. */
  lemma HolderStays(threads: seq<Thread>, after: seq<Thread>, b: BlockId)
    requires |after| == |threads| && HasHolder(threads, b)
    requires forall k :: 0 <= k < |threads| && b in Held(threads[k]) ==> b in Held(after[k])
    ensures HasHolder(after, b)
  {
    var j :| 0 <= j < |threads| && b in Held(threads[j]);
    assert b in Held(after[j]);
  }

  lemma AwaitsStays(threads: seq<Thread>, after: seq<Thread>, ids: set<BlockId>)
    requires |after| == |threads| && Awaits(threads, ids)
    requires forall k :: 0 <= k < |threads| ==> Held(threads[k]) <= Held(after[k])
    ensures Awaits(after, ids)
  {
    var b :| b in ids && HasHolder(threads, b);
    HolderStays(threads, after, b);
  }

  /** A step of one thread that neither gives up nor gains a claim, nor touches the table. */
  lemma QuietStep(s: State, i: nat, t: Thread)
    requires Inv(s) && i < |s.threads| && Held(t) == Held(s.threads[i])
    requires ThreadOk(s.wants[i], t, s.entries) && (t.Asleep? ==> Awaits(s.threads, s.wants[i]))
    ensures Inv(Put(s, i, t))
  {
    var after := Put(s, i, t);
    hide ThreadOk, Held, HasHolder, Awaits;
    assert forall k :: 0 <= k < |s.threads| ==> Held(after.threads[k]) == Held(s.threads[k]);
    forall b | IsLoading(after.entries, b) ensures HasHolder(after.threads, b) {
      HolderStays(s.threads, after.threads, b);
    }
    forall k | 0 <= k < |after.threads| && after.threads[k].Asleep? ensures Awaits(after.threads, after.wants[k]) {
      AwaitsStays(s.threads, after.threads, s.wants[k]);
    }
    assert DecodedOnce(after);
  }

  // ---------------------------------------------------------------------------------------------
  // Each step keeps the invariant

  lemma ClaimEntries(entries: map<BlockId, Entry>, ids: set<BlockId>)
    requires !AnyLoading(entries, ids)
    ensures var claim := Unclaimed(entries, ids);
      var after := Claim(entries, claim);
      && (forall b :: IsReady(entries, b) <==> IsReady(after, b))
      && (forall b :: b in entries ==> b in after && after[b] == entries[b])
      && (forall b :: IsLoading(after, b) <==> IsLoading(entries, b) || b in claim)
      && claim <= ids && AllReady(after, ids - claim)
  {
    var claim := Unclaimed(entries, ids);
    var after := Claim(entries, claim);
    forall b | b in ids - claim ensures IsReady(after, b) {
      assert b in entries && !IsLoading(entries, b);
    }
  }

  lemma ClaimFresh(s: State, i: nat, b: BlockId)
    requires |s.threads| == |s.wants| && ThreadsOk(s) && i < |s.threads| && b in Held(s.threads[i])
    ensures b in s.entries
  {
    assert ThreadOk(s.wants[i], s.threads[i], s.entries);
    if s.threads[i].Loader? && b !in s.threads[i].todo {
      assert IsReady(s.entries, b);
    }
  }

  lemma ClaimDisjoint(s: State, i: nat)
    requires Inv(s) && i < |s.threads| && s.threads[i] == Trying
    ensures var claim := Unclaimed(s.entries, s.wants[i]);
            ClaimsDisjoint(s.threads[i := Loader(claim, claim)])
  {
    var claim := Unclaimed(s.entries, s.wants[i]);
    var after := s.threads[i := Loader(claim, claim)];
    hide ThreadsOk, LoadingHeld, SleepersAwait, DecodedOnce;
    forall k, m, b | 0 <= k < |after| && 0 <= m < |after| && b in Held(after[k]) && b in Held(after[m]) ensures k == m {
      if k != m {
        if k == i {
          ClaimFresh(s, m, b);
        } else if m == i {
          ClaimFresh(s, k, b);
        }
      }
    }
  }

  lemma ClaimThreads(s: State, i: nat, t: State)
    requires Inv(s) && i < |s.threads| && s.threads[i] == Trying && !AnyLoading(s.entries, s.wants[i]) && t == Try(s, i)
    requires !AllReady(s.entries, s.wants[i])
    ensures ThreadsOk(t)
  {
    ClaimEntries(s.entries, s.wants[i]);
    hide ClaimsDisjoint, LoadingHeld, SleepersAwait, DecodedOnce, AllReady, AnyLoading, Unclaimed, Claim, Held;
    forall k | 0 <= k < |t.threads| ensures ThreadOk(t.wants[k], t.threads[k], t.entries) {
      if k != i {
        assert KeepsReady(s.entries, t.entries);
        ThreadStays(s.wants[k], s.threads[k], s.entries, t.entries);
      }
    }
  }

  lemma TryKeeps(s: State, i: nat)
    requires Inv(s) && i < |s.threads| && s.threads[i] == Trying
    ensures Inv(Try(s, i)) && KeepsReady(s.entries, Try(s, i).entries)
  {
    if AllReady(s.entries, s.wants[i]) {
      QuietStep(s, i, Returned(Complete));
    } else if AnyLoading(s.entries, s.wants[i]) {
      var b :| b in s.wants[i] && IsLoading(s.entries, b);
      assert HasHolder(s.threads, b);
      QuietStep(s, i, Asleep);
    } else {
      ClaimKeeps(s, i);
    }
  }

  lemma ClaimKeeps(s: State, i: nat)
    requires Inv(s) && i < |s.threads| && s.threads[i] == Trying
    requires !AllReady(s.entries, s.wants[i]) && !AnyLoading(s.entries, s.wants[i])
    ensures Inv(Try(s, i)) && KeepsReady(s.entries, Try(s, i).entries)
  {
    var t := Try(s, i);
    var claim := Unclaimed(s.entries, s.wants[i]);
    ClaimThreads(s, i, t);
    ClaimDisjoint(s, i);
    ClaimEntries(s.entries, s.wants[i]);
    hide ThreadsOk, ClaimsDisjoint, AllReady, AnyLoading, Unclaimed, Claim, HasHolder, Awaits;
    assert forall k :: 0 <= k < |s.threads| && k != i ==> t.threads[k] == s.threads[k];
    forall b | IsLoading(t.entries, b) ensures HasHolder(t.threads, b) {
      if b in claim {
        HolderIs(t.threads, i, b);
      } else {
        HolderStays(s.threads, t.threads, b);
      }
    }
    forall k | 0 <= k < |t.threads| && t.threads[k].Asleep? ensures Awaits(t.threads, t.wants[k]) {
      AwaitsStays(s.threads, t.threads, s.wants[k]);
    }
  }

  lemma HolderIs(threads: seq<Thread>, j: nat, b: BlockId)
    requires j < |threads| && b in Held(threads[j])
    ensures HasHolder(threads, b)
  {
  }

  lemma PublishThreads(s: State, i: nat, b: BlockId)
    requires Inv(s) && i < |s.threads| && s.threads[i].Loader? && b in s.threads[i].todo
    ensures ThreadsOk(Publish(s, i, b)) && IsLoading(s.entries, b)
  {
    var t := Publish(s, i, b);
    hide LoadingHeld, SleepersAwait, DecodedOnce;
    assert ThreadOk(s.wants[i], s.threads[i], s.entries);
    assert IsLoading(s.entries, b);
    forall k | 0 <= k < |t.threads| ensures ThreadOk(t.wants[k], t.threads[k], t.entries) {
      if k != i {
        assert b in Held(s.threads[i]);
        assert b !in Held(s.threads[k]);
        ThreadStays(s.wants[k], s.threads[k], s.entries, t.entries);
      } else {
        PublishOwn(s.wants[i], s.threads[i], s.entries, b);
      }
    }
  }

  lemma PublishOwn(wants: set<BlockId>, t: Thread, entries: map<BlockId, Entry>, b: BlockId)
    requires t.Loader? && ThreadOk(wants, t, entries) && b in t.todo
    ensures ThreadOk(wants, Loader(t.claim, t.todo - {b}), entries[b := Ready])
  {
    forall c | c in wants - (t.todo - {b}) ensures IsReady(entries[b := Ready], c) {
      assert c == b || c in wants - t.todo;
    }
  }

  lemma PublishDecodes(s: State, i: nat, b: BlockId)
    requires i < |s.threads| && s.threads[i].Loader? && IsLoading(s.entries, b) && DecodedOnce(s)
    ensures DecodedOnce(Publish(s, i, b))
  {
    var t := Publish(s, i, b);
    forall c ensures Decodes(t, c) == if IsReady(t.entries, c) then 1 else 0 {
      assert Decodes(s, c) == if IsReady(s.entries, c) then 1 else 0;
    }
  }

  lemma PublishKeeps(s: State, i: nat, b: BlockId)
    requires Inv(s) && i < |s.threads| && s.threads[i].Loader? && b in s.threads[i].todo
    ensures Inv(Publish(s, i, b)) && KeepsReady(s.entries, Publish(s, i, b).entries)
  {
    var t := Publish(s, i, b);
    PublishThreads(s, i, b);
    PublishDecodes(s, i, b);
    hide ThreadsOk, HasHolder, Awaits, DecodedOnce;
    assert forall k :: 0 <= k < |s.threads| ==> Held(t.threads[k]) == Held(s.threads[k]);
    forall c | IsLoading(t.entries, c) ensures HasHolder(t.threads, c) {
      HolderStays(s.threads, t.threads, c);
    }
    forall k | 0 <= k < |t.threads| && t.threads[k].Asleep? ensures Awaits(t.threads, t.wants[k]) {
      AwaitsStays(s.threads, t.threads, s.wants[k]);
    }
  }

  lemma FailKeeps(s: State, i: nat)
    requires Inv(s) && i < |s.threads| && s.threads[i].Loader?
    ensures Inv(Fail(s, i))
  {
    var t := Dropping(s.threads[i].claim, LoadError);
    assert ThreadOk(s.wants[i], s.threads[i], s.entries);
    forall b | b in t.claim ensures b in s.entries {
      ClaimFresh(s, i, b);
    }
    QuietStep(s, i, t);
  }

  /** After its last block a loader finds everything it wanted: the missing-block error cannot occur. */
  lemma CheckKeeps(s: State, i: nat)
    requires Inv(s) && i < |s.threads| && s.threads[i].Loader? && s.threads[i].todo == {}
    ensures Inv(Check(s, i)) && Check(s, i).threads[i] == Dropping(s.threads[i].claim, Complete)
  {
    assert ThreadOk(s.wants[i], s.threads[i], s.entries);
    assert s.wants[i] - {} == s.wants[i];
    FailKeeps(s, i);
    QuietStep(s, i, Dropping(s.threads[i].claim, Complete));
  }

  lemma DropThreads(s: State, i: nat)
    requires Inv(s) && i < |s.threads| && s.threads[i].Dropping?
    ensures ThreadsOk(Drop(s, i)) && KeepsReady(s.entries, Drop(s, i).entries)
  {
    var t := Drop(s, i);
    hide LoadingHeld, SleepersAwait, DecodedOnce, WakeAll;
    assert ThreadOk(s.wants[i], s.threads[i], s.entries);
    assert KeepsReady(s.entries, t.entries);
    forall k | 0 <= k < |t.threads| ensures ThreadOk(t.wants[k], t.threads[k], t.entries) {
      if k == i {
        ThreadStays(s.wants[i], Returned(s.threads[i].outcome), s.entries, t.entries);
      } else {
        forall b | b in Held(s.threads[k]) ensures b !in Held(s.threads[i]) {
        }
        ThreadStays(s.wants[k], s.threads[k], s.entries, t.entries);
      }
    }
  }

  lemma DropDecodes(s: State, i: nat)
    requires i < |s.threads| && s.threads[i].Dropping? && DecodedOnce(s)
    ensures DecodedOnce(Drop(s, i))
  {
    var t := Drop(s, i);
    forall c ensures Decodes(t, c) == if IsReady(t.entries, c) then 1 else 0 {
      assert Decodes(s, c) == if IsReady(s.entries, c) then 1 else 0;
    }
  }

  lemma DropKeeps(s: State, i: nat)
    requires Inv(s) && i < |s.threads| && s.threads[i].Dropping?
    ensures Inv(Drop(s, i)) && KeepsReady(s.entries, Drop(s, i).entries)
  {
    var t := Drop(s, i);
    DropThreads(s, i);
    DropDecodes(s, i);
    hide ThreadsOk, HasHolder, Awaits, WakeAll, DecodedOnce;
    assert forall k :: 0 <= k < |s.threads| && k != i ==> Held(t.threads[k]) == Held(s.threads[k]);
    forall b | IsLoading(t.entries, b) ensures HasHolder(t.threads, b) {
      assert b !in Held(s.threads[i]);
      HolderStays(s.threads, t.threads, b);
    }
    assert forall k :: 0 <= k < |t.threads| ==> !t.threads[k].Asleep?;
  }

  lemma StepKeeps(s: State, i: nat, a: Action)
    requires Inv(s) && Enabled(s, i, a)
    ensures Inv(Apply(s, i, a)) && KeepsReady(s.entries, Apply(s, i, a).entries)
  {
    hide ThreadsOk, ClaimsDisjoint, LoadingHeld, SleepersAwait, DecodedOnce, Try, Publish, Drop;
    match a
    case DoTry => TryKeeps(s, i);
    case DoPublish(b) => PublishKeeps(s, i, b);
    case DoFail => FailKeeps(s, i);
    case DoCheck => CheckKeeps(s, i);
    case DoDrop => DropKeeps(s, i);
    case SpuriousWake => WakeKeeps(s, i);
  }

  lemma WakeKeeps(s: State, i: nat)
    requires Inv(s) && i < |s.threads| && s.threads[i].Asleep?
    ensures Inv(Put(s, i, Trying))
  {
    QuietStep(s, i, Trying);
  }

  /** Dropping a guard leaves in `Loading` exactly the blocks some other live thread holds. */
  lemma DropReleases(s: State, i: nat)
    requires Inv(s) && i < |s.threads| && s.threads[i].Dropping?
    ensures forall b :: IsLoading(Drop(s, i).entries, b) <==>
              IsLoading(s.entries, b) && exists j :: 0 <= j < |s.threads| && j != i && b in Held(s.threads[j])
    ensures forall b :: IsReady(Drop(s, i).entries, b) <==> IsReady(s.entries, b)
  {
    forall b | IsLoading(s.entries, b) && b !in Held(s.threads[i])
      ensures exists j :: 0 <= j < |s.threads| && j != i && b in Held(s.threads[j])
    {
      assert HasHolder(s.threads, b);
    }
  }

  // ---------------------------------------------------------------------------------------------
  // Whole runs

  datatype Step = Step(thread: nat, action: Action)

  predicate Legal(s: State, steps: seq<Step>)
    decreases |steps|
  {
    && |s.threads| == |s.wants|
    && (steps == [] ||
        (Enabled(s, steps[0].thread, steps[0].action) &&
         Legal(Apply(s, steps[0].thread, steps[0].action), steps[1..])))
  }

  function Execute(s: State, steps: seq<Step>): State
    requires Legal(s, steps)
    decreases |steps|
  {
    if steps == [] then s else Execute(Apply(s, steps[0].thread, steps[0].action), steps[1..])
  }

  ghost predicate Reachable(s: State) {
    exists s0, steps :: Init(s0) && Legal(s0, steps) && s == Execute(s0, steps)
  }

  /** Along any run: the invariant holds and a block that became ready stays ready. */
  lemma {:induction false} RunKeeps(s: State, steps: seq<Step>)
    requires Inv(s) && Legal(s, steps)
    ensures Inv(Execute(s, steps)) && KeepsReady(s.entries, Execute(s, steps).entries)
    ensures Execute(s, steps).wants == s.wants
    decreases |steps|
  {
    if steps != [] {
      StepKeeps(s, steps[0].thread, steps[0].action);
      KeepsWants(s, steps[0].thread, steps[0].action);
      hide Inv, Apply, Enabled;
      RunKeeps(Apply(s, steps[0].thread, steps[0].action), steps[1..]);
    }
  }

  lemma KeepsWants(s: State, i: nat, a: Action)
    requires |s.threads| == |s.wants| && Enabled(s, i, a)
    ensures Apply(s, i, a).wants == s.wants && |Apply(s, i, a).threads| == |s.threads|
  {
  }

  /**
   Safety in every reachable state: a block in `Loading` has exactly one live owner, no block was
   decoded twice, a finished successful load has all its blocks, the missing-block error never
   happens, and every sleeper waits for a live owner of a block it wants.
   */
  lemma SingleFlight(s: State)
    requires Reachable(s)
    ensures |s.threads| == |s.wants|
    ensures forall b :: IsLoading(s.entries, b) ==>
              exists j: nat :: j < |s.threads| && b in Held(s.threads[j]) && forall k: nat :: k < |s.threads| && b in Held(s.threads[k]) ==> k == j
    ensures forall b :: Decodes(s, b) == if IsReady(s.entries, b) then 1 else 0
    ensures forall i :: 0 <= i < |s.threads| && s.threads[i] == Returned(Complete) ==> AllReady(s.entries, s.wants[i])
    ensures forall i :: 0 <= i < |s.threads| && (s.threads[i].Dropping? || s.threads[i].Returned?) ==> s.threads[i].outcome != MissingBlock
    ensures forall i :: 0 <= i < |s.threads| && s.threads[i].Asleep? ==> Awaits(s.threads, s.wants[i]) && Held(s.threads[i]) == {}
  {
    ReachableInv(s);
    forall b | IsLoading(s.entries, b)
      ensures exists j: nat :: j < |s.threads| && b in Held(s.threads[j]) && forall k: nat :: k < |s.threads| && b in Held(s.threads[k]) ==> k == j
    {
      OneHolder(s, b);
    }
    hide LoadingHeld, ClaimsDisjoint, Held, AllReady;
    forall i | 0 <= i < |s.threads| && (s.threads[i].Dropping? || s.threads[i].Returned?)
      ensures s.threads[i].outcome != MissingBlock
      ensures s.threads[i] == Returned(Complete) ==> AllReady(s.entries, s.wants[i])
    {
      assert ThreadOk(s.wants[i], s.threads[i], s.entries);
    }
    forall i | 0 <= i < |s.threads| && s.threads[i].Asleep? ensures Held(s.threads[i]) == {} {
      AsleepHoldsNothing(s.threads[i]);
    }
  }

  lemma AsleepHoldsNothing(t: Thread)
    requires t.Asleep?
    ensures Held(t) == {}
  {
  }

  lemma ReachableInv(s: State)
    requires Reachable(s)
    ensures Inv(s)
  {
    hide Inv;
    var s0, steps :| Init(s0) && Legal(s0, steps) && s == Execute(s0, steps);
    InitInv(s0);
    RunKeeps(s0, steps);
  }

  lemma OneHolder(s: State, b: BlockId)
    requires Inv(s) && IsLoading(s.entries, b)
    ensures exists j: nat :: j < |s.threads| && b in Held(s.threads[j]) && forall k: nat :: k < |s.threads| && b in Held(s.threads[k]) ==> k == j
  {
    hide ThreadsOk, SleepersAwait, DecodedOnce, Held;
    assert HasHolder(s.threads, b);
    var j: nat :| j < |s.threads| && b in Held(s.threads[j]);
  }

  // ---------------------------------------------------------------------------------------------
  // Progress

  /** Some thread can do more than fail or wake for no reason. */
  ghost predicate CanAdvance(s: State)
    requires |s.threads| == |s.wants|
  {
    exists i: nat, a :: Enabled(s, i, a) && a != DoFail && a != SpuriousWake
  }

  lemma LiveThreadAdvances(s: State, j: nat)
    requires |s.threads| == |s.wants| && j < |s.threads| && !s.threads[j].Returned? && !s.threads[j].Asleep?
    ensures CanAdvance(s)
  {
    match s.threads[j]
    case Trying => assert Enabled(s, j, DoTry);
    case Loader(claim, todo) =>
      if todo == {} {
        assert Enabled(s, j, DoCheck);
      } else {
        var b :| b in todo;
        assert Enabled(s, j, DoPublish(b));
      }
    case Dropping(_, _) => assert Enabled(s, j, DoDrop);
  }

  /** No deadlock and no lost wakeup: until every load has returned, some thread can advance. */
  lemma NoDeadlock(s: State, i: nat)
    requires Inv(s) && i < |s.threads| && !s.threads[i].Returned?
    ensures CanAdvance(s)
  {
    if s.threads[i].Asleep? {
      var b :| b in s.wants[i] && HasHolder(s.threads, b);
      var j: nat :| j < |s.threads| && b in Held(s.threads[j]);
      LiveThreadAdvances(s, j);
    } else {
      LiveThreadAdvances(s, i);
    }
  }

  // Three counts that decrease lexicographically: loads that have not claimed, work left, loads awake.

  function Waiting(t: Thread): nat { if t.Trying? || t.Asleep? then 1 else 0 }

  function Work(t: Thread): nat {
    match t
    case Loader(_, todo) => |todo| + 2
    case Dropping(_, _) => 1
    case _ => 0
  }

  function Awake(t: Thread): nat { if t.Trying? then 1 else 0 }

  function Total(threads: seq<Thread>, f: Thread -> nat): nat {
    if threads == [] then 0 else Total(threads[..|threads| - 1], f) + f(threads[|threads| - 1])
  }

  lemma {:induction false} TotalUpdate(threads: seq<Thread>, f: Thread -> nat, i: nat, t: Thread)
    requires i < |threads|
    ensures Total(threads[i := t], f) + f(threads[i]) == Total(threads, f) + f(t)
  {
    var n := |threads| - 1;
    if i < n {
      assert threads[i := t][..n] == threads[..n][i := t];
      TotalUpdate(threads[..n], f, i, t);
    } else {
      assert threads[i := t][..n] == threads[..n];
    }
  }

  lemma {:induction false} TotalWake(threads: seq<Thread>, f: Thread -> nat)
    requires f(Asleep) == f(Trying)
    ensures Total(WakeAll(threads), f) == Total(threads, f)
  {
    if threads != [] {
      var n := |threads| - 1;
      var woken := WakeAll(threads);
      TotalWake(threads[..n], f);
      assert woken[..n] == WakeAll(threads[..n]);
    }
  }

  ghost predicate Smaller(after: seq<Thread>, before: seq<Thread>) {
    var p, q := Total(after, Waiting), Total(before, Waiting);
    var w, v := Total(after, Work), Total(before, Work);
    p < q || (p == q && (w < v || (w == v && Total(after, Awake) < Total(before, Awake))))
  }

  lemma UpdateShrinks(threads: seq<Thread>, i: nat, t: Thread)
    requires i < |threads|
    requires Waiting(t) < Waiting(threads[i]) ||
             (Waiting(t) == Waiting(threads[i]) &&
              (Work(t) < Work(threads[i]) || (Work(t) == Work(threads[i]) && Awake(t) < Awake(threads[i]))))
    ensures Smaller(threads[i := t], threads)
  {
    TotalUpdate(threads, Waiting, i, t);
    TotalUpdate(threads, Work, i, t);
    TotalUpdate(threads, Awake, i, t);
    hide Waiting, Work, Awake, Total;
  }

  lemma StepShrinks(s: State, i: nat, a: Action)
    requires |s.threads| == |s.wants| && Enabled(s, i, a) && a != SpuriousWake
    ensures Smaller(Apply(s, i, a).threads, s.threads)
  {
    if a == DoDrop {
      DropShrinks(s, i);
    } else if a.DoPublish? {
      var t := s.threads[i];
      assert |t.todo - {a.b}| < |t.todo|;
      UpdateShrinks(s.threads, i, Loader(t.claim, t.todo - {a.b}));
    } else {
      UpdateShrinks(s.threads, i, Apply(s, i, a).threads[i]);
    }
  }

  lemma DropShrinks(s: State, i: nat)
    requires i < |s.threads| && s.threads[i].Dropping?
    ensures Smaller(Drop(s, i).threads, s.threads)
  {
    var woken := WakeAll(s.threads);
    var t := Returned(s.threads[i].outcome);
    TotalWake(s.threads, Waiting);
    TotalWake(s.threads, Work);
    TotalUpdate(woken, Waiting, i, t);
    TotalUpdate(woken, Work, i, t);
    hide WakeAll, Total;
  }

  /** No schedule runs forever without spurious wakeups. */
  lemma {:induction false} NoEndlessRun(run: nat -> State, picks: nat -> Step, n: nat)
    requires forall k: nat :: Continues(run, picks, k)
    ensures false
    decreases Total(run(n).threads, Waiting), Total(run(n).threads, Work), Total(run(n).threads, Awake)
  {
    assert Continues(run, picks, n);
    StepShrinks(run(n), picks(n).thread, picks(n).action);
    hide Apply, Enabled, Total;
    NoEndlessRun(run, picks, n + 1);
  }

  predicate Continues(run: nat -> State, picks: nat -> Step, k: nat) {
    var (s, p) := (run(k), picks(k));
    && |s.threads| == |s.wants| && p.action != SpuriousWake
    && Enabled(s, p.thread, p.action) && run(k + 1) == Apply(s, p.thread, p.action)
  }

  predicate Errored(t: Thread) {
    (t.Dropping? || t.Returned?) && t.outcome == LoadError
  }

  /** A load ends in an error only through a failure of its own. */
  lemma {:induction false} ErrorsAreOwn(s: State, steps: seq<Step>, i: nat)
    requires Inv(s) && Legal(s, steps) && i < |s.threads| && !Errored(s.threads[i]) && Step(i, DoFail) !in steps
    ensures i < |Execute(s, steps).threads| && !Errored(Execute(s, steps).threads[i])
    decreases |steps|
  {
    if steps != [] {
      var first := steps[0];
      var t := Apply(s, first.thread, first.action);
      StepKeeps(s, first.thread, first.action);
      KeepsWants(s, first.thread, first.action);
      StepErrs(s, first.thread, first.action, i);
      assert steps == [first] + steps[1..];
      hide Inv, Apply, Enabled, Errored;
      ErrorsAreOwn(t, steps[1..], i);
    }
  }

  lemma StepErrs(s: State, j: nat, a: Action, i: nat)
    requires Inv(s) && Enabled(s, j, a) && i < |s.threads| && !Errored(s.threads[i])
    requires !(i == j && a == DoFail)
    ensures i < |Apply(s, j, a).threads| && !Errored(Apply(s, j, a).threads[i])
  {
    hide Inv, WakeAll, Claim, Unclaimed;
    assert |s.threads| == |s.wants| by { InvSizes(s); }
  }

  lemma InvSizes(s: State)
    requires Inv(s)
    ensures |s.threads| == |s.wants|
  {
  }

  /**
   The outcome of every complete run, whatever the interleaving: each load has returned; it
   succeeded unless it failed itself, and then every block it asked for is in the table.
   */
  lemma CompletedRun(s0: State, steps: seq<Step>, i: nat)
    requires Init(s0) && Legal(s0, steps) && i < |s0.threads|
    requires var t := Execute(s0, steps); |t.threads| == |t.wants| && !CanAdvance(t)
    ensures var t := Execute(s0, steps);
      && i < |t.threads| && t.threads[i].Returned? && t.wants == s0.wants
      && (Step(i, DoFail) !in steps ==> t.threads[i].outcome == Complete && AllReady(t.entries, t.wants[i]))
  {
    InitInv(s0);
    RunKeeps(s0, steps);
    var t := Execute(s0, steps);
    hide Legal, Execute, CanAdvance, AllReady;
    if !t.threads[i].Returned? {
      NoDeadlock(t, i);
    }
    if Step(i, DoFail) !in steps {
      ErrorsAreOwn(s0, steps, i);
    }
    assert ThreadOk(t.wants[i], t.threads[i], t.entries);
  }
}
