# seagrep, modelled and proved in Dafny

seagrep answers a regex search from an index that may only over-approximate, reading a
block-compressed snapshot in pieces; its contract is that an indexed search equals a full decoded scan.
This project models the parts of seagrep that carry that contract and proves what each promises.
`dafny verify dfyconfig.toml` checks all of it.

| part | modules | main results |
|---|---|---|
| Candidates | `Hirs`, `QueryPlan`, `Eval`, `Candidate`, `CandidateRanges`, `CandidateSearch`, `CandidateBatches`, `PrefixScan`, `BlockIndex` | no match is lost between the built postings, the regex and the reported block ranges (`CandidateSearch.MatchReported`) |
| Grams | `Grams`, `Covering`, `CoverExact`, `TextGrams` | query-side grams are index-side grams of every text that contains the literal, and exactly when they cover it |
| Finite witnesses | `ProofGraphs`, `ProofDfa`, `ProofTrim`, `ProofBound` | a proof bound is found exactly when one exists, and every match then has a witness |
| Packs | `PackRead`, `PackBuild`, `PackDocuments`, `PackFetch`, `Lines`, `Regions`, `Flight` | packed documents read back whole, by range, by line and through any cache; single-flight loading is safe and live |
| Index life cycle | `Update`, `Publish`, `PublishRuns` | an update converges to the listing; no interleaving deletes a blob that the root names, and an indexer whose root is still current publishes exactly its list |
| Output | `Grep`, `Sanitize` | the printing loop equals a declarative output; newline stripping keeps exactly the newline-free matches |
| Codecs | `Bits`, `Postings`, `DeltaBlocks`, `Varints`, `SparseEntries`, `SparseWriter`, `SparseRefusals`, `SparseTable`, `SparseLookup` | encoders and decoders undo each other; the sparse dictionary is a map |
| Object cache | `ObjectCaches` (in `Cache.dfy`) | every disk a crash can leave is safe, with one exact exception |

`Common.dfy` holds `Wrappers`, `Slices`, `Sorting` and `BlockSpace`, shared by all.

## How the model reads the program

- A loop of the source is a method with a loop, proved against a specification function or an independent
  definition; a recursive function over a tree is a function. Objects whose methods update fields
  (`SparseGramRanges`, `PackBuilder`, `SparseTableWriter`, the decoded-block cache of the sparse `TermMap`,
  `ObjectCache`) are classes.
- The candidate block size, the pack block and range sizes, gaps, and count targets are parameters; the
  posting layout (40 and 24 bits), the 128-id delta block, and the 128 KiB dictionary block are constants.
- The regex literal extractor is any function for which every match starts, or ends, with one of the
  literals. The pair weight is any function of two bytes. The automaton is any total step function over
  finitely many states with accepting, dead and quit states. The block compressor is any inverse pair.
- Digests are arbitrary functions. Where a reader accepts bytes by their digest, the statement assumes of
  the bytes in play only (the stored blocks and what a cache holds) that none carries the digest of a block
  it is not; nothing is assumed of other byte strings. Gram hashing is not in the model: grams are byte strings,
  so collisions, which only enlarge candidates, do not occur.
- `anyhow::Result` is `Ok` or `Err` without a message.
- A document "fits" an extent as the source uses it: a match of at most `span` bytes; a match inside one
  line, with a line no longer than the recorded maximum or a saturated maximum; or anything for a whole
  document.
- `Flight` and `Publish` are state machines; every critical section, store operation or swap is one step,
  and the theorems range over all interleavings. In `Publish`, segment ids are drawn fresh (the source
  draws them at random), and a root version is the root's content. Liveness in `Flight` needs no fairness:
  spurious wake-ups aside, every run of productive steps ends.

## What the code does not do

- Replacing a cached object can leave a wrong total behind. `put_body` measures the entry it replaces
  before it reads the state file. When that state is dirty, recovery evicts and may remove the entry, and its
  size is subtracted all the same. `ObjectCaches.ObjectCache.PutBody` states exactly on which disks
  that leaves a wrong record, `ObjectCaches.RecoveryCanMiscount` gives one (a record of 116 bytes for files of 216, cap
  200), and `ObjectCaches.CleanNeverMiscounts` rules it out for a clean state file or a key not on disk.
- A key prefix that ends in `!` and contains no `!/` can skip a segment that holds a match: `bundle.zip!`
  matches `bundle.zip!/a.log`, but is compared with the source key `bundle.zip`.
  `PrefixScan.SkipsExactly` proves that these are exactly the prefixes affected.
- The covering grams of a literal need not cover it when a pair weight is zero.
  `CoverExact.CoversIff` gives the exact condition on the weights: a single pair; or positive weights at both
  ends, and no positive pair followed by two weightless ones whose later weights all stay below it with the
  largest of them repeated. A gap costs selectivity, never a match.
- A refused value spoils the sparse table writer. `insert` checks the order first, but writes the hash before
  it checks the value, so a singleton with a length, or a list without a positive one, leaves stray bytes in
  the pending block (`SparseWriter.SparseTableWriter.Insert` states which refusals do). No inserts encode to
  that block (`SparseRefusals.StrayIsNoBlock`, with an example in `SparseRefusals.RefusalExample`).
- A collected blob can come back. A dead set is named by its content, so an indexer that started from an older
  root can write one again after the winner deleted it; it cannot publish it, and the blob stays behind.
  `PublishRuns.CollectedIsGone` says exactly when, `PublishRuns.OrphanExample` gives such a run.
- The sparse table parser checks where its blocks begin only when there are any:
  `SparseTable.JunkIsAccepted` is an accepted table with junk in front of its index, and
  `SparseTable.IndexFollowsBlocks` says exactly when the index begins where the blocks end.

## Model

| member | source | states |
|---|---|---|
| `CandidateSearch.MatchReported` | crates/index/src/candidate.rs:43-262 | End to end for trigram segments: for every regex, document and non-empty match that fits the plan's extent, any list that covers the plan reports the document, whole or with one range that contains every block from the match's first byte to its last under an extent at least as broad |
| `CandidateSearch.EmptyMatchReported` | crates/index/src/candidate.rs:43-262 | If the regex matches the empty string anywhere in a document, every stretch of that document's blocks is reported |
| `BlockIndex.IndexBlocks` | crates/index/src/build.rs:493-660 | The builder's pass records each document's size and longest line, the running block bases, and exactly one place in the id space per block and trigram; it gives up only on too many blocks |
| `BlockIndex.BuiltPostings` | crates/index/src/build/runs.rs:542-593 | The sorted lists of these records hold every trigram of every block, nothing else, and ids inside the id space |
| `BlockIndex.BuiltSegmentOk` | crates/index/src/build.rs:493-660 | What the builder makes is a segment as the search assumes it, given a dictionary that answers for its lists |
| `CandidateSearch.FindCandidates` | crates/index/src/candidate.rs:21-72 | Refuses exactly an empty plan list or a zero byte span; otherwise, for any number of plans, every run of blocks in the exact meaning of each plan is covered; documents come once each and in order; every block of a reported range is in the meaning of some plan's resolved query, and a document is read whole only for a plan that rules nothing out or a document-wide plan that means one of its blocks |
| `CandidateSearch.ReportedIsExact` | crates/index/src/candidate.rs:43-262 | With every gram kept and no plan that rules nothing out, each reported document has a block in the exact meaning of some plan and each block of a reported range is in one |
| `CandidateSearch.VisitPlans` | crates/index/src/candidate.rs:54-72 | Several plans share one set of fetched posting blocks and one document map; the map covers every run of blocks each plan chose and holds nothing that no plan means |
| `CandidateSearch.SelectOnePlan` | crates/index/src/candidate.rs:43-53 | One plan over a sound segment never fails; its report covers every run of blocks in the plan's exact meaning, names only existing documents, and holds nothing outside the meaning of the resolved query |
| `CandidateSearch.TouchedBlocksSelected` | crates/index/src/eval.rs:107-305 | Every block a fitting match touches is in the exact meaning of the planned query, because postings are expanded at the leaves before any intersection |
| `CandidateSearch.CandidateDocuments` | crates/index/src/candidate.rs:198-237 | A selection becomes documents: all of them for "everything"; for sparse ids exactly those documents, failing iff one is out of range; for trigram ids a report that covers every selected run, fails iff the bases are missing or an id is out of range, and lists no document without a selected block |
| `CandidateSearch.BlockDocuments` | crates/index/src/candidate.rs:221-231 | Document-wide candidates: fails iff a block id is out of range; every document that owns a selected block is listed whole, and no other |
| `CandidateSearch.AddReport` | crates/index/src/candidate.rs:239-262 | Adding one plan's report keeps everything the map covered and adds everything the report covers; a whole document stays whole |
| `CandidateSearch.SparseMatchChosen` | crates/index/src/eval.rs:107-305 | Sparse strategy: a document in which the regex matches anywhere is in the exact meaning of its planned query |
| `CandidateSearch.SelectSparsePlan` | crates/index/src/candidate.rs:43-53 | Sparse strategy: one plan never fails on a sound segment, reports every document in its exact meaning whole, in order, and none outside the meaning of the resolved query |
| `Candidate.ExpansionCoversMatch` | crates/index/src/candidate.rs:92-119 | The slack arithmetic: if a match fits the extent, the expansion of the block of any of its bytes contains the block of every other |
| `Candidate.ExpansionInDocument` | crates/index/src/candidate.rs:92-119 | An expansion contains its block and never leaves the owning document |
| `Candidate.ExpansionIs` | crates/index/src/candidate.rs:92-119 | An expansion holds exactly the document's blocks within the reach of a match on either side of the block; all of them for a whole document or a saturated line maximum |
| `Candidate.BlockDocumentOwns` | crates/index/src/candidate.rs:88-90 | Below the id space, the looked-up document's block interval contains the id |
| `Candidate.BlockDocumentUnique` | crates/index/src/candidate.rs:88-90 | Any document whose block interval contains the id is the looked-up one, empty documents included |
| `Candidate.BuildBlockBases` | crates/index/src/candidate.rs:74-86 | Succeeds iff the last base fits 32 bits, and then holds the running block count the writer assigned |
| `Candidate.TrackMaxLine` | crates/index/src/build/runs.rs:117-127 | Fed a stream in any chunks, the tracked maximum is the longest line of everything seen so far |
| `Candidate.NewlineFreeFits` | crates/index/src/build/runs.rs:117-127 | No newline-free stretch of a document is longer than its recorded longest line |
| `Candidate.LongestIsReached` | crates/index/src/build/runs.rs:117-127 | Some newline-free stretch of the document is exactly as long as its recorded longest line |
| `CandidateRanges.GroupCandidateBlocks` | crates/index/src/candidate.rs:121-162 | Ascending block ids become one group per document with maximal disjoint ranges holding exactly the selected blocks; fails iff the extent is a whole document or an id is out of range |
| `CandidateRanges.RunInOneRange` | crates/index/src/candidate.rs:121-162 | A contiguous run of selected blocks lies in a single range, not split over several |
| `CandidateRanges.MergeCandidateRanges` | crates/index/src/candidate.rs:176-196 | Merging gives disjoint ascending ranges with exactly the union of the blocks; every input range lies in one output range with an extent at least as broad, and no extent is invented |
| `CandidateRanges.PickBroader` | crates/index/src/candidate.rs:164-174 | One of the two extents, at least as broad as both |
| `Eval.SelectionSound` | crates/index/src/eval.rs:107-305 | Resolving and evaluating a query over a sound dictionary never fails; the ids are strictly ascending and contain the query's exact meaning under any expansion; when no gram was dropped and expansions contain their id, they are exactly that meaning |
| `Eval.ResolveSound` | crates/index/src/eval.rs:107-172 | Resolution never fails on a sound dictionary and only widens the meaning, through every singleton, missing-gram and full-list shortcut |
| `Eval.ResolveExact` | crates/index/src/eval.rs:107-172 | When no gram is dropped, resolution does not widen the meaning either |
| `Eval.PruneWidens` | crates/index/src/eval.rs:174-214 | Whatever grams pruning drops from a conjunction, an id in all children stays in the result |
| `Eval.PruneExact` | crates/index/src/eval.rs:174-214 | When pruning keeps every gram, the result has no more than the conjunction |
| `Eval.PruneKeeps` | crates/index/src/eval.rs:174-214 | Every child that is no gram stays; with a single document among them all grams go, otherwise the rarest stay, up to 64 for trigrams and 8 for sparse grams, and none that is dropped is rarer than one that is kept |
| `Eval.EvaluateMeans` | crates/index/src/eval.rs:251-305 | Given the needed blocks, evaluation succeeds and returns exactly the meaning of the resolved query, sorted without duplicates: it never asks for a block that was not listed |
| `Eval.CollectBlocks` | crates/index/src/eval.rs:217-229 | The collected map is the old one overridden by every posting block of the query |
| `Eval.EvaluateBelow` | crates/index/src/eval.rs:251-305 | With postings and expansions inside the id space, every selected id is inside it |
| `Eval.ResolveUsesOnly` | crates/index/src/eval.rs:61-74 | Resolution depends on the dictionary only through the grams that were collected from the query |
| `Eval.CollectQueryGrams` | crates/index/src/eval.rs:61-74 | The stack walk returns exactly the grams of all queries, strictly ascending |
| `Eval.PackRoundTrip` | crates/index/src/eval.rs:31-49 | Packing a posting succeeds iff the offset fits 40 bits and the count 24, fits 64 bits, and unpacks to the same pair |
| `Eval.IntersectSorted` | crates/index/src/eval.rs:308-323 | The two-cursor merge equals the set intersection of strictly ascending lists |
| `QueryPlan.PlanSound` | crates/query/src/lib.rs:51-91 | For every syntax tree and every stretch it matches, the planned query holds of the grams of that stretch, by induction over concatenation, alternation, capture and repetition, for both strategies |
| `QueryPlan.PlanSoundForText` | crates/query/src/lib.rs:51-91 | The planned query holds of the grams of any text that contains a match |
| `QueryPlan.PlanMeans` | crates/query/src/lib.rs:14-91 | A plan is true of a gram set iff the set meets what the regex demands: a literal of each side that has a finite list, every part of a concatenation, some branch of an alternation, and whatever must occur at least once |
| `QueryPlan.PlanHir` | crates/query/src/lib.rs:51-91 | The planner's accumulating loops build the query the soundness lemmas are about |
| `QueryPlan.AssembleParts` | crates/query/src/lib.rs:80-90 | Deduplication and flattening of the collected parts give the specified query |
| `QueryPlan.SideQueryHolds` | crates/query/src/lib.rs:25-39 | A query from one side's literals holds of every match when the extractor is sound |
| `QueryPlan.LitQueryHolds` | crates/query/src/lib.rs:14-21 | The query of a literal holds of every text that contains it |
| `TextGrams.QueryGramsIndexed` | crates/core/src/grams.rs:196-268 | Every gram a literal is queried by is among the indexed grams of every text containing the literal, at any offset, for both strategies and with weight ties |
| `TextGrams.IndexedIsLocal` | crates/core/src/grams.rs:245-252 | Whether a range is an indexed gram depends only on the pair weights inside it |
| `TextGrams.SparseQueryGramsCover` | crates/core/src/grams.rs:196-239 | With no zero pair weight, every byte of a literal of length two or more lies in some gram it is queried by |
| `TextGrams.TrigramGramsElements` | crates/core/src/grams.rs:13-40 | The trigram list holds exactly the three-byte windows, strictly ascending |
| `TextGrams.PackTrigramBlockGrams` | crates/core/src/grams.rs:53-70 | Exactly the pairs of a block and a trigram that starts in it, ascending by block then gram |
| `Grams.SparseGramRanges.NextWith` | crates/core/src/grams.rs:144-178 | Each call returns the next indexed range in (start, end) order after the saved state and skips none; it ends only when no indexed range is left |
| `Grams.SparseGramRanges.NextLonger` | crates/core/src/grams.rs:160-174 | The inner scan from one start returns the next longer indexed range, or proves there is none and stops early |
| `Grams.SparseGramRanges.constructor` | crates/core/src/grams.rs:133-142 | The initial state stands before every range |
| `Grams.SparseGramsAll` | crates/core/src/grams.rs:186-193 | The index-side grams are exactly the cut-outs of the ranges the gram test accepts, strictly ascending |
| `Grams.SkipStart` | crates/core/src/grams.rs:144-178 | Once the interior weight reaches the start weight, no longer range from that start is indexed |
| `Covering.SparseGramsCovering` | crates/core/src/grams.rs:196-239 | The mutable stack computes the specified scan, drain, sort and deduplication |
| `Covering.ScanKeepsInv` | crates/core/src/grams.rs:210-226 | After any number of pairs the stack holds strictly decreasing weights, everything emitted is indexed, and every position between stack entries is covered |
| `Covering.CoverRangesCorrect` | crates/core/src/grams.rs:196-239 | All emitted ranges are indexed, and with positive weights they cover every position |
| `CoverExact.CoverRangesAre` | crates/core/src/grams.rs:196-239 | Exactly the ranges the stack selects, without the stack: from a pair to the first that is no lighter, between neighbours among the pairs that outweigh everything after them, and the last heaviest pair, each if indexed |
| `CoverExact.CoversIff` | crates/core/src/grams.rs:196-239 | Every byte of a literal lies in a selected range iff it is a single pair, or the first and last weights are positive and no positive pair with two weightless pairs right behind it stays above a later weight that is the largest after it and occurs twice |
| `Covering.ZeroWeightLeavesAGap` | crates/core/src/grams.rs:196-239 | Weights 0, 5 are an input on which the first byte lies in no selected gram |
| `Covering.PopEmits` | crates/core/src/grams.rs:212-222 | A pop's emission keeps coverage and, when filtered out by a tie, its pair was already covered |
| `ProofBound.FindProofBound` | crates/core/src/pattern.rs:170-188 | Returns a bound iff the start state is live, no reachable pre-acceptance step quits, and the lengths of first-acceptance words are bounded; the bound is their exact maximum |
| `ProofBound.FindWitness` | crates/core/src/pattern.rs:651-711 | For every region in the pattern's language, forward or reversed, the search succeeds; what it returns is an accepted slice inside the match of at most the proven number of bytes |
| `ProofBound.ScanForAcceptance` | crates/core/src/pattern.rs:651-711 | Stepping at most the bound reaches acceptance on every accepted region, at its first acceptance |
| `ProofBound.WordHasPath` | crates/core/src/pattern.rs:237-410 | Every first-acceptance word of the automaton is an accepting path of the explored graph, one node longer |
| `ProofBound.PathHasWord` | crates/core/src/pattern.rs:237-410 | Every accepting path of the explored graph spells a first-acceptance word |
| `ProofBound.BoundExcludesOthers` | crates/core/src/pattern.rs:582-640 | A bound is unique, and excludes both "no witness" and "unbounded" |
| `ProofDfa.Explore` | crates/core/src/pattern.rs:237-312 | Breadth-first exploration, cut at acceptance, records every reachable state and transition once; giving up means the start is dead or a quit state is reachable |
| `ProofDfa.ExpandNode` | crates/core/src/pattern.rs:269-306 | Expanding one state adds exactly its live successors, each once |
| `ProofTrim.MarkCoaccessible` | crates/core/src/pattern.rs:335-361 | The reverse search marks exactly the nodes that reach acceptance |
| `ProofTrim.ReverseEdges` | crates/core/src/pattern.rs:316-334 | The reverse lists are exactly the reversed edges |
| `ProofTrim.Trim` | crates/core/src/pattern.rs:370-410 | The renumbered graph has exactly the kept nodes and the edges between them |
| `ProofTrim.PathSurvives` | crates/core/src/pattern.rs:316-410 | Every accepting path survives trimming with its length |
| `ProofTrim.PathComesFrom` | crates/core/src/pattern.rs:316-410 | Trimming invents no accepting path |
| `ProofGraphs.FindLongestAcceptingPath` | crates/core/src/pattern.rs:582-640 | The iterative coloured search returns the exact longest accepting path from the start, or finds a reachable cycle or dead end |
| `ProofGraphs.PumpCycle` | crates/core/src/pattern.rs:600-625 | A cycle on which acceptance is reachable yields accepting paths of any length |
| `Flight.StepKeeps` | crates/index/src/pack.rs:804-869 | Every step of every thread keeps the protocol invariant, and Ready is permanent |
| `Flight.RunKeeps` | crates/index/src/pack.rs:804-869 | The same over any run of any interleaving, spurious wake-ups included |
| `Flight.SingleFlight` | crates/index/src/pack.rs:804-869 | In every reachable state: a Loading block has exactly one live owner; a block was decoded successfully once iff it is Ready; a successful call finds all its blocks and none is missing; a waiter holds nothing and awaits a live owner |
| `Flight.DropReleases` | crates/index/src/pack.rs:132-145 | The guard releases exactly its own unfinished blocks |
| `Flight.NoDeadlock` | crates/index/src/pack.rs:804-869 | While any call has not returned, some thread can take a productive step |
| `Flight.StepShrinks` | crates/index/src/pack.rs:804-869 | Every step other than a spurious wake-up lowers a well-founded measure |
| `Flight.NoEndlessRun` | crates/index/src/pack.rs:804-869 | There is no infinite run of productive steps |
| `Flight.ErrorsAreOwn` | crates/index/src/pack.rs:804-869 | A call fails only if its own decoding failed |
| `Flight.CompletedRun` | crates/index/src/pack.rs:804-869 | When nothing can advance, every call has returned, and each without a failure of its own has all its blocks |
| `Publish.StepKeeps` | crates/index/src/segment.rs:440-829 | Every step of every indexer - load, draw, write, merge, tombstone, swap, delete - keeps the safety invariant |
| `Publish.RootNeverLosesABlob` | crates/index/src/segment.rs:725-829 | Over every interleaving, with delayed deletion and the old-format sweep, every terms, postings, document and dead-set blob the current root names is in the store |
| `Publish.PlanNotRetired` | crates/index/src/segment.rs:725-771 | A plan whose snapshot is still the root names nothing that was ever handed to a collector, so a dropped name cannot win a later swap |
| `Publish.SwapRetires` | crates/index/src/segment.rs:798-829 | A swap hands to the collector only names the new root does not have, of segment ids already drawn |
| `Publish.RetiredForever` | crates/index/src/segment.rs:818-829 | Once retired, a name is never named by the root again |
| `PublishRuns.SwapDecides` | crates/index/src/segment.rs:716-736 | Over a whole run, whatever the others do: if the root an indexer loaded is still the root when it swaps, the root names exactly the segments its own steps kept, adopted and tombstoned, and what its list replaced is up for deletion; otherwise the swap changes neither root nor store |
| `PublishRuns.LoadedIsReplaced` | crates/index/src/segment.rs:505-542 | What is replaced at any point of a build stays among what its list replaced |
| `PublishRuns.InventoryIsSwept` | crates/index/src/segment.rs:737-771 | After an unreadable root, everything that was in the store when the inventory was taken and that the new root does not name is up for deletion |
| `PublishRuns.CollectedIsGone` | crates/index/src/segment.rs:818-829 | Once a winner has worked off its deletions, a blob it was told to delete is in the store iff some indexer wrote it again after the last deletion, and no root names it |
| `PublishRuns.LateWriterLost` | crates/index/src/segment.rs:728-735 | Whoever writes a blob that is up for deletion has a snapshot that is no longer the root, so it cannot publish it |
| `PublishRuns.OrphanExample` | crates/index/src/segment.rs:818-829 | A run in which a loser leaves such a blob behind: a dead set published, replaced and deleted, then written again from an older snapshot |
| `Update.UpdateIndex` | crates/index/src/segment.rs:440-780 | Starting with at most one live source per key: a published index has exactly one live source per listed key, with its listed version, and none for any other; each is an unchanged current source of the old index or one built in this run with the flags its decoding gave, and every current one stays; both up-to-date exits imply the listing already matched; a settled, converged index publishes nothing; it fails only if a single document that needed adding cannot be built |
| `Update.UpdateConverges` | crates/index/src/segment.rs:565-714 | Keeping the current sources and adding what needs adding matches the listing exactly |
| `Update.IdleMeansConverged` | crates/index/src/segment.rs:599-624 | Nothing to add and nothing stale implies the live sources already match the listing, with no retry pending |
| `Update.ConvergedMeansIdle` | crates/index/src/segment.rs:565-624 | A converged index with no retry pending has nothing to add and nothing stale |
| `Update.CollectAdditions` | crates/index/src/segment.rs:576-584 | Collects exactly the listed sources without a current live version, each once |
| `Update.CollectStale` | crates/index/src/segment.rs:585-597 | Marks exactly the live places whose key is unlisted or whose version differs |
| `Update.TombstoneAccount` | crates/index/src/segment.rs:634-657 | Tombstoning leaves exactly the current live sources alive |
| `Update.Retain` | crates/index/src/segment.rs:658-684 | Dropping dead segments and repacking conserves the multiset of live sources, and keeps only segments rewritten without tombstones or with some source alive and no call to rewrite them |
| `Update.MergeAccount` | crates/index/src/segment/compact.rs:235-379 | A merged segment holds exactly the live sources of its inputs |
| `Update.MaybeCompact` | crates/index/src/segment/compact.rs:14-67 | Compaction happens iff there are more segments than the target and some adjacent pair is within the caps; it removes one segment and conserves the multiset of live sources |
| `Update.PickVictim` | crates/index/src/segment/compact.rs:22-57 | The first of the adjacent pairs within the caps that has the fewest live documents, or none when no pair is within the caps |
| `Update.WriteBounded` | crates/index/src/segment.rs:943-986 | Recursive splitting puts each added source in exactly one segment, in order; it fails only on a single document that does not fit |
| `Update.BuildLive` | crates/index/src/segment.rs:565-574 | The live map locates every live source of every segment, the last one for a repeated key |
| `PackDocuments.PackAndRead` | crates/index/src/pack.rs:245-366 | Round trip: any documents packed into blocks and packs of any size pass the table check, and every range of every document reads back as the original bytes |
| `PackDocuments.ValidateDocuments` | crates/index/src/format.rs:125-188 | The check accepts exactly the tables whose documents tile the decoded stream in order, empty documents at the origin |
| `PackDocuments.BuiltTablesTile` | crates/index/src/format.rs:125-188 | Tables of the builder always pass the check |
| `PackDocuments.PackAll` | crates/index/src/pack.rs:245-334 | All blocks are full but the last, the stream is the concatenation of the documents, every block reads back, each document is recorded at its place, and a block shares the pack of the one before it iff both fit the pack size |
| `PackDocuments.DecodeAll` | crates/index/src/pack.rs:496-513 | Returns the stored blocks whenever there are any, and nothing that does not verify |
| `PackBuild.PackBuilder.Append` | crates/index/src/pack.rs:245-271 | Fails iff the reader is short; otherwise the stream grows by exactly the document and the slice is where it begins |
| `PackBuild.PackBuilder.Finish` | crates/index/src/pack.rs:273-280 | Every stored block reads back, packs are laid out end to end, and the stream is everything appended |
| `PackBuild.PackBuilder.FlushBlock` | crates/index/src/pack.rs:282-315 | The pending block becomes the next stored block and earlier ones stay readable |
| `PackBuild.PackBuilder.FinishPack` | crates/index/src/pack.rs:317-334 | Closing the active pack changes no stored byte |
| `PackRead.BlockSpan` | crates/index/src/pack.rs:341-366 | Succeeds iff the document lies within the stream where its slice says, and returns exactly the blocks up to its last byte |
| `PackRead.DocumentBlocks` | crates/index/src/pack.rs:609-634 | The parts tile the document, one per block, or the slice is invalid |
| `PackRead.ReadRange` | crates/index/src/pack.rs:871-953 | A range inside the document returns exactly those bytes; an inverted or overlong one is refused |
| `PackRead.PiecesAddUp` | crates/index/src/pack.rs:900-953 | The overlapping parts' pieces concatenate to the requested slice of the document |
| `PackFetch.PackAndFetch` | crates/index/src/pack.rs:399-577 | Packed and then fetched whole through a disk cache of any content, every document is the original, as long as no stored or cached bytes carry the digest of a block they are not |
| `PackFetch.FetchLarge` | crates/index/src/pack.rs:541-577 | With sound packs and the same assumption on the bytes in play, every placed document comes back byte for byte whatever else the cache holds; only verified bytes enter the cache |
| `PackFetch.VisitBlocks` | crates/index/src/pack.rs:399-494 | On any store and cache, success means exactly the requested blocks were visited, in order, each from bytes with the recorded digest; sound packs always succeed |
| `PackFetch.BlockRuns` | crates/index/src/pack.rs:368-397 | Coalescing keeps the block list as it is, each run is one contiguous range of one pack, no joined run passes the range limit, and a run ends only where the next block could not have joined |
| `PackFetch.NextBatch` | crates/index/src/pack.rs:515-535 | A batch is never empty, is within the byte limit or no larger than its first run, and stops only when the next run would pass the limit |
| `PackFetch.SplitRun` | crates/index/src/pack.rs:443-475 | A fetched range is cut into verified blocks; sound packs never fail here |
| `PackFetch.ReadRun` | crates/index/src/pack.rs:413-424 | A run is served from disk iff every one of its blocks is there with the recorded digest |
| `CandidateBatches.ReadBatches` | crates/index/src/segment.rs:1537-1626 | Every live candidate of a segment is handed over once and in order unless the visitor stops; a batch keeps the document limit, its distinct blocks keep the byte limit unless it is one document, and it ends only where the next document could not have joined it |
| `CandidateBatches.ReadSegments` | crates/index/src/segment.rs:1465-1626 | Over all segments: those without a key for the prefix are skipped, every other one is handed over whole, and a stop or an error ends the walk with everything before it finished |
| `CandidateBatches.SpanIsTouched` | crates/index/src/pack.rs:341-366 | A block span is exactly the set of blocks that share a byte with the document |
| `PrefixScan.PrefixOverlaps` | crates/index/src/segment.rs:1294-1314 | True iff some key with the prefix lies between the segment's bounds |
| `PrefixScan.SkipsExactly` | crates/index/src/segment.rs:1473-1479 | Skipping by the source prefix loses no document for any segment bounds iff the prefix does not end in `!` without containing `!/` |
| `PrefixScan.SourcePrefixKeeps` | crates/index/src/segment.rs:1473-1474 | For a matching display key, its source keeps the source prefix except when the prefix is the source followed by `!` |
| `Lines.ExtendLineRange` | crates/index/src/pack.rs:955-1035 | The range contains the request, starts and ends on line boundaries or the document's ends, and has exactly the requested context lines on each side, or all there are |
| `Lines.LocateLine` | crates/index/src/pack.rs:1037-1091 | Succeeds iff the offset is in the document, and gives the naive line number and line start, whatever blocks are skipped |
| `Lines.ExtendStart` | crates/index/src/pack.rs:964-996 | The backward loop over blocks with counts finds the line start the byte-wise definition gives |
| `Lines.ExtendEnd` | crates/index/src/pack.rs:998-1033 | The forward loop finds the line end the byte-wise definition gives |
| `Lines.BackLinesIs` | crates/index/src/pack.rs:964-996 | The byte-wise definition: a line start with exactly the asked newlines in between, or the document's start |
| `Lines.ForwardLinesIs` | crates/index/src/pack.rs:998-1033 | The byte-wise definition going forward, or the document's end |
| `Lines.LineStartUnique` | crates/index/src/pack.rs:1037-1091 | A position has one line start |
| `Regions.FetchRegions` | crates/index/src/pack.rs:1162-1279 | Fails iff a request is invalid; otherwise regions hold the document's own bytes and every request is served: each match of at most its span that touches a regional request lies wholly in one region; if only full lines are asked for, every region begins and ends between lines |
| `Regions.MergePlannedRanges` | crates/index/src/pack.rs:655-697 | Every planned range ends up inside one merged range with at least its context; merged ranges stay more than the gap apart, begin and end with inputs, and hold no byte that is not in an input or less than the gap behind one |
| `Regions.PlanPackRanges` | crates/index/src/pack.rs:699-749 | Fails iff a request is invalid; a plan holds every request's padded range inside the document; the whole document is asked for iff the merged ranges are too many or cover more than half of it |
| `Grep.GrepMatches` | crates/core/src/grep.rs:53-140 | The loop with its ring of pending lines prints exactly the declarative output: the lines in a context window of one of the first `max_count` matching lines, with numbers, offsets and clamped matches |
| `Grep.EventTellsTruth` | crates/core/src/grep.rs:75-140 | Every printed event names a whole line by its number, offset and bytes, and its submatches are the found matches that start on it, one for one and in order, as offsets from the line start with the end cut at the line's content |
| `Grep.PrintedAscends` | crates/core/src/grep.rs:53-140 | Printed line numbers are strictly increasing and in range |
| `Grep.LineIndexIsNumber` | crates/core/src/grep.rs:53-140 | The k-th line starts at a line start and its number is one more than the newlines before it |
| `Grep.OneLineEach` | crates/core/src/grep.rs:81-94 | A match is on at most one line |
| `Grep.OutputNonempty` | crates/core/src/grep.rs:152-157 | For a count limit other than zero, the output is non-empty iff some match starts on a line |
| `Grep.HasLineMatch` | crates/core/src/grep.rs:152-157 | Agrees with the output being non-empty for every option with a count limit other than zero |
| `Grep.TakeMatches` | crates/core/src/grep.rs:81-94 | The cursor takes exactly the matches of the line, located and cut as the declarative output has them, and stops at the first later one |
| `Grep.Drain` | crates/core/src/grep.rs:96-106 | Emptying the ring prints exactly the pending lines inside the before-context |
| `Bits.PackIds` | crates/index/src/lib.rs:162-177 | The byte accumulator writes exactly the concatenated fixed-width digits, without passing 64 bits |
| `Bits.UnpackIds` | crates/index/src/lib.rs:179-195 | Reads back any id list the bytes pack, and always exactly the count of in-range ids |
| `Bits.DigitsUnique` | crates/index/src/lib.rs:162-195 | Fixed-width digits determine the list |
| `Postings.EncodePostingBlock` | crates/index/src/lib.rs:197-217 | Dense, complement or plain, the block has exactly the predicted length and encodes the list |
| `Postings.DecodePostingBlock` | crates/index/src/lib.rs:222-267 | Decodes every encoded list to itself; whatever it accepts has exactly the count of strictly ascending in-range ids |
| `Postings.MissingTwice` | crates/index/src/lib.rs:143-153 | The complement of the complement is the list |
| `Postings.StoresSmallerSide` | crates/index/src/lib.rs:143-153 | What is stored is the smaller of the list and its complement |
| `Postings.IdBitsFit` | crates/index/src/lib.rs:135-137 | The id width holds every id and is between 1 and 32 |
| `Postings.IdBitsAreLeast` | crates/index/src/lib.rs:135-137 | The id width is the least: above 1, one bit less is too narrow for some id |
| `Postings.LenIsPacked` | crates/index/src/lib.rs:157-160 | The predicted length is the packed length of the stored ids |
| `DeltaBlocks.DecodeDeltaBlocks` | crates/index/src/delta_blocks.rs:40-87 | Decodes every encoded list to itself; whatever it accepts is strictly ascending, in range and of the right count |
| `DeltaBlocks.EncodeDeltaBlocks` | crates/index/src/delta_blocks.rs:18-36 | The bytes encode the list in blocks of 128 deltas, each with the least width that holds its deltas |
| `DeltaBlocks.TightIsLeast` | crates/index/src/delta_blocks.rs:112-114 | In a tight block every smaller width is too small for some delta |
| `DeltaBlocks.AddDeltas` | crates/index/src/delta_blocks.rs:66-78 | Adds deltas back, refusing exactly a list that leaves the range |
| `Varints.ReadVarint` | crates/index/src/sparse_table.rs:32-51 | Returns v and its end wherever v is encoded; whatever it accepts is below 2^64 and consumes bytes |
| `Varints.WriteVarint` | crates/index/src/sparse_table.rs:20-30 | Appends the unsigned LEB128 encoding (section 7.6 of DWARF Version 5) |
| `Varints.VarintLen` | crates/index/src/sparse_table.rs:20-30 | A value of 7n bits takes at most n bytes |
| `SparseEntries.ForEachEntry` | crates/index/src/sparse_table.rs:59-94 | Replays exactly the entries a block encodes; whatever it accepts is non-empty and strictly ascending |
| `SparseEntries.EntrySize` | crates/index/src/sparse_table.rs:123-158 | An entry is at most 30 bytes: 10 for the hash, 20 for the value |
| `SparseWriter.SparseTableWriter.Insert` | crates/index/src/sparse_table.rs:123-158 | Accepts exactly ascending hashes with a packable value and then holds one more entry; an out-of-order hash changes nothing; a refused value leaves its hash in the pending block, so a refusal leaves the writer valid iff the hash was out of order |
| `SparseRefusals.StrayIsNoBlock` | crates/index/src/sparse_table.rs:123-158 | Behind any entries, a hash without a value is the encoding of no insert sequence, so finishing after a refused value writes a block that none encodes to |
| `SparseRefusals.RefusalExample` | crates/index/src/sparse_table.rs:123-158 | A concrete refused singleton, the ten bytes it leaves pending, and that they are no block |
| `SparseRefusals.SharedPrefix` | crates/index/src/sparse_table.rs:59-94 | Entries are prefix-free: two insert sequences whose blocks begin alike agree as far as the shorter one goes |
| `SparseWriter.SparseTableWriter.FlushBlock` | crates/index/src/sparse_table.rs:160-175 | Flushing keeps what was inserted and turns the pending entries into one block of at most 128 KiB and 29 bytes; during inserts only blocks of at least 128 KiB are flushed |
| `SparseTable.Finish` | crates/index/src/sparse_table.rs:180-203 | The table is the blocks, their index and the footer, and holds everything inserted |
| `SparseTable.Parse` | crates/index/src/sparse_table.rs:226-311 | Accepts exactly the well-formed tails and returns what they say: footer with magic, an index that abuts it, blocks chained from offset 8 to the index within the length limits, ascending first hashes, no blocks iff no entries; the writer's tables are accepted from any tail that includes the index |
| `SparseTable.IndexFollowsBlocks` | crates/index/src/sparse_table.rs:226-311 | Of accepted bytes, the index begins where the blocks end iff there is a block or the index offset is 8 |
| `SparseTable.JunkIsAccepted` | crates/index/src/sparse_table.rs:226-311 | Five bytes of junk between the magic and the footer of an empty table are accepted |
| `SparseTable.ChunksAscend` | crates/index/src/sparse_table.rs:123-203 | Hashes ascend across blocks |
| `SparseLookup.BlockFor` | crates/index/src/sparse_table.rs:314-319 | The last block whose first hash is at most the sought one |
| `SparseLookup.SparseTerms.Get` | crates/index/src/terms.rs:246-303 | Returns the inserted value iff the hash was inserted, whichever blocks are already decoded, and keeps the cache correct |
| `SparseLookup.FetchGramValues` | crates/index/src/remote_terms.rs:64-147 | For every list of hashes, a value is returned for exactly the inserted ones; the block cache may hold anything except forged bytes that carry a block's digest |
| `SparseLookup.FindTerm` | crates/index/src/sparse_table.rs:324-340 | Finds an entry iff its hash is in the block |
| `ObjectCaches.ObjectCache.PutBody` | crates/s3/src/cache.rs:120-182 | An entry above the cap changes nothing; otherwise the put fails iff a number does not fit, and on success the entry is stored with the next stamp and a clean record; the disk stays safe over every write iff the disk found was not one on which recovery drops the entry being replaced and its size still fits the recovered total and the cap; then only the oldest others made room |
| `ObjectCaches.ObjectCache.GetBody` | crates/s3/src/cache.rs:94-114 | Only an entry that is on disk and valid is handed out, and then nothing changes; a damaged one yields none, is gone, and every other recovered entry and a true clean record remain, or it yields an error exactly when recovery had dropped it already |
| `ObjectCaches.ObjectCache.Open` | crates/s3/src/cache.rs:57-86 | From any directory at all, opening yields a true clean record and evicts only the oldest whole entries; if the record found was dirty, or true for this cap, every disk a crash could leave on the way is safe too |
| `ObjectCaches.ObjectCache.ReadState` | crates/s3/src/cache.rs:285-302 | A clean record is taken as it is; a dirty one is rebuilt from the files |
| `ObjectCaches.ObjectCache.Evict` | crates/s3/src/cache.rs:324-362 | Drops short files and then the shortest oldest-first prefix that fits the cap; the returned total is that of what is left and the stamp the newest of all whole entries found |
| `ObjectCaches.EvictionKeeps` | crates/s3/src/cache.rs:324-362 | Eviction keeps an entry iff it and everything newer fit the cap together |
| `ObjectCaches.DropsIff` | crates/s3/src/cache.rs:285-302 | Recovery drops an entry iff the record is dirty and its file is shorter than a header or the whole entries from it on exceed the cap |
| `ObjectCaches.MiscountsIff` | crates/s3/src/cache.rs:120-182 | The wrong record after a put is told by the disk before it |
| `ObjectCaches.ObjectCache.WriteState` | crates/s3/src/cache.rs:304-322 | A new record keeps the disk safe iff it is true of the files |
| `ObjectCaches.ObjectCache.Write` | crates/s3/src/cache.rs:304-322 | Every intermediate disk, the one a crash would leave, is recorded in the history |
| `ObjectCaches.CleanNeverMiscounts` | crates/s3/src/cache.rs:120-182 | With a clean record, or a key not on disk, a put never miscounts |
| `ObjectCaches.RecoveryCanMiscount` | crates/s3/src/cache.rs:120-182 | A dirty record can miscount: with cap 200 the record says 116 bytes for files of 216 |
| `ObjectCaches.EvictionIsDetermined` | crates/s3/src/cache.rs:324-362 | What eviction leaves is determined by the files and the cap |
| `ObjectCaches.NewestSurvives` | crates/s3/src/cache.rs:120-182 | An entry that fits the cap and is newest is never evicted |
| `Sanitize.StripExact` | crates/cli/src/patterns.rs:77-123 | When stripping succeeds, the result matches exactly the newline-free matches of the original, in every context |
| `Sanitize.StrippedCannot` | crates/cli/src/patterns.rs:73-125 | A stripped tree passes the newline check |
| `Sanitize.MatchesNoNewline` | crates/core/src/pattern.rs:148-168 | A tree that fails the can-match-newline check has no match with a newline |
| `Sanitize.StripFails` | crates/cli/src/patterns.rs:77-123 | Stripping fails iff the tree holds a literal with a newline |

## Left out

- The S3 client, local files, memory maps, temporary files, permissions and progress reporting: input and output only; a store is a map or a sequence of bytes.
- The command line, rendering and format decoders: a document is the byte sequence a decoder delivers.
- I/O errors, and reader errors while a document is appended or an object is stored: only the error returns that depend on data are modelled.
- Integer conversions and overflow checks on 64-bit totals that data of any real size cannot reach: totals are unbounded, except where a bound is the property (posting packing, bit accumulators, varints, block bases, the sparse table, the object cache).
- `regex-syntax`, `regex-automata`, `fst`, `zstd`, `sha2`, `blake3` and `rapidhash`: contracts as above. The tree constructors' own simplifications (merging literals, flattening) are not modelled: stripping and planning work on trees as they are, so no result depends on them.
- Memory budgets of the proof graph (`plan_capacity` and the `reserve_*` functions) and the caps on automaton size and on the bound itself: they only turn a bound into "no proof".
- The FST dictionary of the trigram strategy, the sharded builder and `postings_table.rs`: concatenation and chunked hashing.
- External sorting and merging of posting runs, and the bitmap and streaming paths of the trigram packer: a gram's list is the sorted set of its records (`BlockIndex`), and the dictionary is assumed to answer for these lists.
- Order among equal keys of an unstable sort: results are stated so that it does not matter.
- Remote posting-block verification and range coalescing in `read_posting_blocks`: a fetched posting list is the stored one.
- `fetch_documents` request windows, temporary spool files and prefetching: `PackFetch` covers one large document and `PackRead` the range reads.
- A range digest mismatch between a pack's metadata length and its stored length: `PackFetch` takes the pack's length from the store.
- Newline counts of blocks are assumed true in `Lines` and `Regions`; they are verified data in the source.
- Mixed regional and full-line requests in one batch: `Regions` claims coverage and content, not line alignment of merged regions.
- Content-addressed packs in `Publish`: a pack may be collected by one indexer while another is about to name it again, so the claim is about segment-scoped blobs only.
- `update_index` on documents inside a source, failed-source counts, and the format and identity checks of the root: `Update` works on sources, their versions and their retry marks. A listing that names a key twice is refused before the diff; `Update` starts after that check.
- Strategy detection, cache-directory eviction by modification time, benches, fuzzers and parity scripts: heuristics and tooling.
- ObjectCaches.ObjectCache.Open: when the record found is not true for the new cap, such as after the cap was made smaller, a crash before the end is not covered; the next open rescans all the same.
- ObjectCaches.ObjectCache.PutBody: two processes share the cache under a file lock in the source; the model is one holder of the lock at a time.
- SparseWriter.SparseTableWriter.Insert: a writer spoiled by a refused value takes no further calls; the builder gives up on the error.
- Update.WriteBounded: splitting on the candidate-block cap is a predicate on the documents of a shard; how a corpus is built from them is not modelled.
