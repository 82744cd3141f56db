# Corpus, modelled and proved in Dafny

Corpus collects executable files from endpoints, stores each distinct content once per tenant,
links similar files, and hunts through them with YARA rules. This project models the parts of
it where several steps, tables or machines have to agree, and proves what they agree on.

`dafny verify dfyconfig.toml` checks everything. Methods follow the loops and row updates of
the source (the semantic pass has its own copy of the edge insert, which does the same); each
is proved equal to a function on plain values, and what those functions mean is proved by
lemmas about whole inputs, whole runs and every point at which a run can be cut.

## What the modules say

- **Matching** with **Jaccard** and **StableSort** — function matching between two binaries
  (semantic coverage). The greedy assignment is one-to-one and stable, hence maximal; it
  reaches half the size and half the score of any rival; the copy that the evidence query
  recomputes by offset chooses the same pairs; the order of the inputs does not matter.
  **SemanticEdges** — the edge that follows from the coverage, decided in whole numbers, and
  independent of the order of the functions too.
- **VariantGroups** with **SimilarityModel** — variant groups kept by relabelling rows. After
  inserts alone, groups are exactly the connected components of strong edges, each under the
  smallest id ever issued inside it. **GroupChains** says it in the requests themselves: chains of
  exact copies, normalized equivalents and strong semantic edges; leads make no group. With whole cleanups in between, every strong edge still lies
  inside a group of at least two members. **GroupCleanup** — a cleanup keeps groups equal to
  components if and only if the strong neighbours of the artifact are joined without it.
  **GroupCrashes** — an insert or a cleanup cut between any two statements: exactly which cuts
  break the groups, which of them doing it again makes good, and what whole histories with any
  cuts still keep.
- **Neighborhood** — the capped breadth-first query returns exact shortest distances, in chains of
  rows of the table, even when it is truncated, and its flag says exactly whether something was
  left out; only a full list leaves something out.
- **Hunts** — retro-hunts and forward scans over an immutable scan cache, each operation cut at
  any of its writes. **HuntHistory** — whole histories from the empty database: whatever has
  happened, the next full run of a planned hunt ends with the rows, the counters and the state
  that the scans of its pinned artifacts determine. **HuntInterleaving** — the same with uploads, scans, other
  runs and everything else between any two writes of a run. **CoverageHandoff** — exactly when no artifact is left
  between history and forward scanning: always if the watermark is pinned after the activation,
  and under a condition on the tables if an older hunt is reused.
- **Ingest** — the server's announce, stage and finalize over content-addressed storage. In
  every reachable state, also after a crash between promotion and transaction, each artifact
  row has bytes under its own digest, and their length.
- **Capture** — the agent's durable queue and pipeline run against that very server, with lost
  requests, lost replies, crashes on both sides, reboots and other clients in between. Which
  files stay in the spool, and exactly which cuts leave one to nobody.
- **RollingHash**, **PieceHash**, **FuzzyDigest**, **FuzzyCompare** — the ssdeep-compatible fuzzy
  hash: the rolling registers depend on seven bytes, each character is six bits of the FNV hash
  of its piece, one pass computes two independent digests, the edit
  distance in two rows is the least number of edits, and comparison is a symmetric score that
  gives 100 to every printed digest against itself. In 32 bits: exactly when the score stays
  between 0 and 100, and exactly for which files the search for a block size ends.
- **Spool** — the encrypted spool file: what the stable read writes decrypts to what it hashed,
  and under an ideal AEAD, which exists, nothing is accepted but the writer's output cut after
  some chunk.
- **Usn**, **Rdcw** — parsers of Windows change records: they invert the record layouts, and a
  truncated buffer yields a prefix. **Utf16** — their file names: lossy decoding inverts
  encoding, and loses something exactly when a surrogate is unpaired.
- **Authentihash** — hashing a PE file around its signature: signing adds its alignment padding
  to what is hashed, and nothing else.
- **Rules**, **Registry** — comment stripping, rule names, the tables of rules and bundles, and
  the digest of a published bundle, which determines the set of rules and nothing about their
  order.
- **Bits**, **Bytes**, **Numbers**, **Options** — shared definitions.

## Conventions

Tables are maps under their unique keys, and one SQL statement or transaction is one step.
UUIDs that the code would draw are parameters, required to be unused where the proofs need it.
`fuel` is the number of persisted steps a call may still make before its process dies; `None`
is a call that is not interrupted. SHA-256, the AEAD and the YARA scanner are functions; what
is assumed of them stands in the `requires` of the lemmas that use it (a digest is compared,
never inverted; the one lemma that excludes a collision names the two inputs). Scores and
thresholds are `real`. The 32-bit numbers of the fuzzy hash and the page bounds wrap as in
a release build.

Where the code and its documentation differ, the model follows the code:

- `crates/corpus-core/src/similarity/lifecycle.rs` documents a count of repaired groups, but
  `repair_group` reports a change only together with a removal, so the count is always 0.
- Groups are described as connected components, but a cleanup never splits one. They stay
  components exactly as long as every cleaned artifact can be bypassed, that is, its strong
  neighbours are joined without it (lemmas `PurgeKeepsComponents`, `UnbypassedCleanupBreaks`;
  `CleanupLeavesUnsplitGroup` is a run in which it cannot).
- A strong edge and its union are separate statements. An insert that dies in between leaves the
  edge without its group, and inserting it again finds the row and does nothing (lemmas
  `CutInsertIsSoundExactly`, `RedoneInsertRepairsNothing`).
- A group with fewer than two members is described as no group, but a cleanup that dies after
  it has deleted the membership and before it has repaired the group leaves one behind, and
  cleaning up again does not remove it (lemmas `CutIsSoundExactly`, `RerunFinishesExactly`).
- Forward scans cache their result before they write the forward hunt's rows, and skip what is
  cached. A scan cut in between leaves those rows missing for good: they are complete exactly
  when the cut came after the last of them (method `ForwardRowsStayAsCut`). Retro-hunts do not
  lose rows this way.
- An activation reuses an open hunt, whose watermark may be older than the activation. Whether
  something is missed then depends on the commits above that watermark: it is not if and only
  if none of them had its forward scan begun without the bundle (`ReuseIsSafeExactly`,
  `ReuseCheck`; `OlderWatermarkLeavesHole` is a run in which something is missed).
- A watermark is described as pinned once, but it is read and written by separate statements: two
  plannings of one hunt at once that both find none pin different ones as soon as something is
  committed in between, and the later write stays (lemma `OverlappingPlansAgree`).
- `finalize` compares the staged bytes with the digest in its own request, never with the one
  announced for the session (lemma `CommitFollowsStagedBytes`; in `AnyBytesCommitUnderAnyAnnouncement`
  any other bytes are committed from the empty server).
- A stable read whose second look at the file fails with an I/O error leaves its spool file
  behind; every other failure removes it (predicate `Leaves`).
- The bundle digest is described as independent of rule order, while `bundle_digest` on its own
  keeps the order of rules that share a stable id (lemma `BundleInputIdentifies`). It is
  independent of it for every bundle that can be published (lemma `PublishedDigestIdentifies`):
  `create_rule` is the only insert, always uses the namespace 'default' and refuses a second
  source for a stable id (registry.rs:50-64), rules are sorted before the digest
  (registry.rs:136), ids are identifiers, and a PostgreSQL text column holds no zero byte.
- `strip_comments` pushes bytes as chars, so every byte above 0x7f outside comments becomes two
  bytes. Its result is a different text unless that part is ASCII, and stripping twice is then
  not stripping once (lemmas `StripIsIdempotentExactly`, `StripChangesAccents`). Rule names are
  ASCII and come out the same (lemma `NameIgnoresComments`).
- `parse_rule_name` indexes past its token list when the only `rule` token is the last one
  (rules.rs:65), and the call panics (lemmas `PanicsExactly`, `BareRulePanics`).
- Publishing checks its rules one by one, but a list that names one twice breaks the primary key
  of `rule_bundle_rule` and is refused (method `Publish`; `FoundBundleIsTheOneNamed` says
  that no stored bundle stands for it).
- `compare` promises a score from 0 to 100, but the cap of the score is a product of 32-bit
  numbers, and a wrapped cap makes the score negative: exactly when `CompareInRangeExactly` says.
  Digests of files of up to three GiB stay in range (lemma `PrintedCompareInRange`); at the next
  block size full digests reach -2147483648 (lemma `FullTextsWrap`). Uploads are limited to
  512 MiB.
- `fuzzy_hash` doubles a 32-bit block size. Above 192 GiB the search never ends (method
  `FuzzyHash`); between 96 and 192 GiB the wrapped double is harmless (lemma `WrapIsHarmless`).
- The page of a neighbourhood query adds `offset` and `limit` unchecked: if the sum wraps and the
  offset lies inside the list, the slice panics (method `RunQuery`, lemma `CutPageIsExact`).
- A candidate's spool file is removed after its COMPLETE row is written, and nothing else ever
  removes one. A run that dies in between, or between writing the file and its HASHED row, leaves
  a file that no active candidate and no gap names, for good (method `RunAgent`).
- A spool file cut exactly between two chunks is accepted by `decrypt_file`; the upload's size
  and digest are what catches it.

## Model

| member | source | states |
|---|---|---|
| Jaccard.Compute | crates/corpus-core/src/semantic/features.rs:198-220 | the two-pointer loop computes the recursive merge score, for any lists |
| Jaccard.MatchesCountIntersection | crates/corpus-core/src/semantic/features.rs:204-214 | on strictly sorted lists the merge counts exactly the common elements |
| Jaccard.ScoreIsSetJaccard | crates/corpus-core/src/semantic/features.rs:198-220 | on strictly sorted lists the score is size of intersection over size of union of the two sets |
| Jaccard.ScoreInUnitInterval | crates/corpus-core/src/semantic/features.rs:198-220 | between 0 and 1 for all lists |
| Jaccard.ScoreSymmetric | crates/corpus-core/src/semantic/features.rs:198-220 | the same in both directions |
| Jaccard.PerfectScoreMeansEqual | crates/corpus-core/src/semantic/features.rs:198-220 | 1 exactly for equal lists |
| Matching.CandidatesAre | crates/corpus-core/src/semantic/edges.rs:281-289 | the candidate list holds exactly the index pairs scoring at least the threshold |
| Matching.AssignGreedily | crates/corpus-core/src/semantic/edges.rs:298-319 | the loop over the used arrays picks what the recursive greedy choice picks, and the arrays mark exactly the picked ends |
| Matching.CoverageWithTau | crates/corpus-core/src/semantic/edges.rs:280-375 | every field of the coverage result in terms of the candidates and the assignment |
| Matching.AssignedAlreadyRanked | crates/corpus-core/src/semantic/edges.rs:347-355 | the second sort before the top five are taken never changes the order |
| Matching.MatchingIsStable | crates/corpus-core/src/semantic/edges.rs:290-319 | one-to-one, made of candidates, and each candidate left out shares an end with an assigned pair that ranks no worse |
| Matching.AssignedInDetail | crates/corpus-core/src/semantic/edges.rs:281-319 | in scores and offsets: pairs of functions scoring at least the threshold, none twice, the better score first and then the smaller offsets; and of any two functions scoring that much, one is in an assigned pair that comes no later in this order |
| Matching.EndsInDetail | crates/corpus-core/src/semantic/edges.rs:321-345 | the functions with a candidate are those with a partner scoring at least the threshold |
| Matching.SelectInOrder | crates/corpus-core/src/semantic/edges.rs:321-345 | contested and unmatched lists hold the offsets of their functions in list order, each once |
| Matching.MatchingIsHalfOptimal | crates/corpus-core/src/semantic/edges.rs:290-319 | at least half the pairs and half the total score of any one-to-one set of candidates |
| Matching.HalfWeight | crates/corpus-core/src/semantic/edges.rs:307-319 | the same for any weight that does not increase along the list |
| Matching.SidesArePartitioned | crates/corpus-core/src/semantic/edges.rs:321-345 | on each side, assigned, contested and unmatched functions add up to all functions |
| Matching.RecomputePairs | crates/corpus-core/src/semantic/edges.rs:685-715 | the evidence query returns the first pairs of the offset-keyed greedy choice, at least one and at most 64 or what was asked for |
| Matching.CopiesAgree | crates/corpus-core/src/semantic/edges.rs:685-715 | with distinct offsets both copies choose the same pairs in the same order |
| Matching.InputOrderIsIrrelevant | crates/corpus-core/src/semantic/edges.rs:685-715 | permuting either list changes neither the chosen pairs nor their order |
| Matching.AssignmentIgnoresInputOrder | crates/corpus-core/src/semantic/edges.rs:280-319 | the same for the index-keyed copy |
| SemanticEdges.DecideEdge | crates/corpus-core/src/semantic/edges.rs:513-537 | edge type and score of a pair of binaries as the assignment determines them |
| SemanticEdges.DecisionInNumbers | crates/corpus-core/src/similarity/model.rs:110-132 | of the pairs scoring at least 0.35: strong takes three of them assigned and three fifths of both sides, weak seven twentieths of both sides, and there is no other edge |
| SemanticEdges.DecisionIgnoresInputOrder | crates/corpus-core/src/semantic/edges.rs:513-537 | listing the functions of either binary in another order gives the same edge |
| VariantGroups.SimilarityDb.UnionGroups | crates/corpus-core/src/similarity/edges.rs:165-207 | the row updates have the effect of one relabelling on the whole store; a cut leaves what its first statements leave |
| VariantGroups.SimilarityDb.InsertEdge | crates/corpus-core/src/similarity/edges.rs:107-137 | a new row under the ordered key, a conflict changes nothing, and only strong types merge; a cut leaves what its first statements leave |
| VariantGroups.SimilarityDb.CleanupArtifact | crates/corpus-core/src/similarity/lifecycle.rs:94-243 | refusals and dry runs change nothing; otherwise edges, membership, feature, function, band and receipt rows go, every count is what was found before, and a cut leaves what its first deletes leave |
| VariantGroups.SimilarityDb.RepairGroup | crates/corpus-core/src/similarity/lifecycle.rs:250-280 | at most one member left: membership and group row go, in this order; otherwise nothing changes |
| VariantGroups.UnionMerges | crates/corpus-core/src/similarity/edges.rs:165-207 | a union joins its two arguments and separates nobody |
| VariantGroups.InsertKeepsExact | crates/corpus-core/src/similarity/edges.rs:107-207 | one insert keeps groups equal to components, each named by its smallest issued id |
| VariantGroups.GroupsAreComponents | crates/corpus-core/src/similarity/edges.rs:107-207 | after any inserts, two artifacts share a group if and only if a path of strong edges joins them |
| GroupChains.GroupsAreChains | crates/corpus-core/src/similarity/edges.rs:107-207 | after any inserts, two artifacts share a group if and only if a chain of requests of type exact copy, normalized equivalent or strong semantic joins them |
| GroupChains.LeadsMakeNoGroup | crates/corpus-core/src/similarity/model.rs:88-108 | inserts of byte-similar, shared-provenance and weak semantic edges alone leave no group and no member |
| GroupChains.LeadsAreWhatDoesNotMerge | crates/corpus-core/src/similarity/neighborhood.rs:366-372 | a type is a weak lead of the query if and only if it does not merge groups |
| VariantGroups.ComponentKeepsSmallestId | crates/corpus-core/src/similarity/edges.rs:162-183 | the id in use is the least ever issued inside the component |
| VariantGroups.PartitionIgnoresOrder | crates/corpus-core/src/similarity/edges.rs:162-207 | the partition depends only on which strong pairs were inserted |
| VariantGroups.RunStoresItsPairs | crates/corpus-core/src/similarity/edges.rs:107-137 | the strong pairs stored after a run are those it asked for |
| VariantGroups.EveryRunIsSound | crates/corpus-core/src/similarity/lifecycle.rs:94-280 | after any inserts and cleanups: strong edges lie inside groups, groups have two members or more, group rows are the ids in use |
| VariantGroups.PurgeStrandsNoEdge | crates/corpus-core/src/similarity/lifecycle.rs:169-280 | a cleanup, even one that dissolves a left-over singleton, strands no strong edge |
| VariantGroups.CleanupLeavesUnsplitGroup | crates/corpus-core/src/similarity/lifecycle.rs:248-280 | a run after which two artifacts share a group and no strong path joins them |
| GroupCleanup.PurgeKeepsComponents | crates/corpus-core/src/similarity/lifecycle.rs:169-280 | from a state in which groups are components, a purge keeps that if and only if any two strong neighbours of the artifact are joined without it |
| GroupCleanup.CleanupKeepsComponents | crates/corpus-core/src/similarity/lifecycle.rs:94-280 | the same for a cleanup as called: dry runs and legal holds keep it always |
| GroupCleanup.RunKeepsComponents | crates/corpus-core/src/similarity/lifecycle.rs:94-280 | inserts and bypassed cleanups in any order keep every group joined by strong edges |
| GroupCleanup.GroupsAreComponentsWithCleanups | crates/corpus-core/src/similarity/lifecycle.rs:94-280 | after inserts and bypassed cleanups in any order, two artifacts share a group if and only if strong edges join them |
| GroupCleanup.UnbypassedCleanupBreaks | crates/corpus-core/src/similarity/lifecycle.rs:169-280 | the first cleanup that cannot be bypassed leaves two artifacts in one group that nothing joins |
| GroupCrashes.CutInsertIsSoundExactly | crates/corpus-core/src/similarity/edges.rs:107-207 | an insert keeps all groups in order if and only if it is not cut between its row and the end of its union |
| GroupCrashes.RedoneInsertRepairsNothing | crates/corpus-core/src/similarity/edges.rs:107-137 | after a cut behind the row, the same insert in either direction changes nothing |
| GroupCrashes.CutStrandsNoEdge | crates/corpus-core/src/similarity/lifecycle.rs:177-220 | wherever a cleanup is cut, every strong edge that is left lies inside a group |
| GroupCrashes.CutIsSoundExactly | crates/corpus-core/src/similarity/lifecycle.rs:177-280 | a cut keeps all groups in order if and only if it does not fall between the membership and the end of a repair that dissolves |
| GroupCrashes.RerunFinishesExactly | crates/corpus-core/src/similarity/lifecycle.rs:169-280 | cleaning up again ends where an uncut cleanup ends if and only if the cut did not fall there |
| GroupCrashes.UncutEdgesStayGrouped | crates/corpus-core/src/similarity/edges.rs:107-207 | in every history of inserts and cleanups cut anywhere, a strong edge whose own insert was not cut has both ends in one group |
| GroupCrashes.UncutPathsStayGrouped | crates/corpus-core/src/similarity/edges.rs:107-207 | and so have the ends of every path of such edges |
| Neighborhood.LoadNeighbors | crates/corpus-core/src/similarity/neighborhood.rs:324-410 | returns exactly the filtered edges at a node, each as often as stored, in the order of the query |
| Neighborhood.Traverse | crates/corpus-core/src/similarity/neighborhood.rs:171-237 | nodes at their exact distance, edges in range and distinct, caps kept, and the flag exact |
| Neighborhood.BallIsCovered | crates/corpus-core/src/similarity/neighborhood.rs:191-237 | while no node was turned away, everything as near as the finished nodes has been found |
| Neighborhood.TakeNeighborKeeps | crates/corpus-core/src/similarity/neighborhood.rs:206-233 | one turn of the inner loop keeps the invariant and settles that neighbour |
| Neighborhood.FlagIsExact | crates/corpus-core/src/similarity/neighborhood.rs:184-237 | truncated if and only if a node within the bound or an edge in range was omitted |
| Neighborhood.RunQuery | crates/corpus-core/src/similarity/neighborhood.rs:155-289 | over the rows of the table: each returned node stands at the length of its shortest chain of usable rows, read in either direction; depth at most 4, at most 256 nodes and 1024 edges; both lists sorted as documented and without repetition; the flag is exact, and only a full list leaves something out; the page, and exactly when the slice panics |
| Neighborhood.CutPageIsExact | crates/corpus-core/src/similarity/neighborhood.rs:256-261 | the slice with a wrapping end is the page asked for, unless the sum wraps while the offset lies inside the list |
| Neighborhood.PagesTile | crates/corpus-core/src/similarity/neighborhood.rs:256-261 | consecutive pages put together are an initial stretch of the sorted edge list |
| Neighborhood.BallIsMadeOfWalks | crates/corpus-core/src/similarity/neighborhood.rs:191-237 | being within distance n is having a walk of at most n filtered edges from the seed |
| Neighborhood.BallIsMadeOfRows | crates/corpus-core/src/similarity/neighborhood.rs:191-237 | being within distance n is having a chain of at most n links from the seed, where a link is a row of the queried model with both ends stored, the least score and an allowed type, joining the two in either direction |
| Neighborhood.DistanceInRows | crates/corpus-core/src/similarity/neighborhood.rs:191-237 | a distance is the length of the shortest such chain |
| Neighborhood.RangeInRows | crates/corpus-core/src/similarity/neighborhood.rs:345-372 | an edge is in range if and only if it is such a row with an end within one less than the depth, which is at most 4 |
| Neighborhood.OnlyCapsOmit | crates/corpus-core/src/similarity/neighborhood.rs:191-237 | while the node cap is not reached every node in range is found, and while neither is, every edge |
| Neighborhood.TypesInAlphabet | crates/corpus-core/src/similarity/neighborhood.rs:240-256 | the tie-break between edge types is the alphabetical order of their names |
| Hunts.HuntDb.CommitArtifact | crates/corpus-core/src/ingest.rs:345-356 | a digest is stored once; a new one gets a sequence number above all others, and no hunt's pinned set changes |
| Hunts.HuntDb.CoverArtifact | crates/corpus-core/src/hunts.rs:406-517 | a hit or a scan gives the terminal result, and only rows of this artifact are written, whole or cut |
| Hunts.HuntDb.CoverPinned | crates/corpus-core/src/hunts.rs:398-540 | the loop ends with the rows and counters that the pinned list determines; cut short, with some of those rows |
| Hunts.HuntDb.ExecuteHunt | crates/corpus-core/src/hunts.rs:323-555 | error cases, the match table after a completed run, that a rerun over a full cache reads no bytes, and the verdict in the scans of the pinned artifacts: partial if and only if one is unreadable, timed out or failed, and otherwise completed |
| Hunts.HuntDb.EnqueueHunt | crates/corpus-core/src/hunts.rs:232-316 | planning resets the counters, pins a watermark once and keeps it afterwards; a planned hunt can be run, and a cut leaves one of four states |
| Hunts.HuntDb.ClaimNextJob | crates/corpus-core/src/hunts.rs:571-606 | hands out the oldest pending job and marks only it |
| Hunts.HuntDb.ForwardBundle | crates/corpus-core/src/hunts.rs:632-691 | cache entry, rows and counters of one bundle, whole or cut at any write; a cached result writes nothing |
| Hunts.HuntDb.ForwardScan | crates/corpus-core/src/hunts.rs:613-737 | afterwards every active bundle has a cached result for the bytes, and exactly the forward hunts of the bundles scanned now have gained rows, all of them unless the scan is cut |
| Hunts.HuntDb.ForwardRowsStayAsCut | crates/corpus-core/src/hunts.rs:632-666 | in any state where the bytes are not cached yet: after a cut and any later scans of the same bytes, the forward hunt's rows are complete if and only if the cut came after the last row |
| Hunts.HuntDb.OnBundleActivated | crates/corpus-core/src/continuous.rs:76-126 | reuses the newest open hunt, planning it if it is a draft; otherwise plans one whose watermark is the newest commit |
| Hunts.PrefixWithin | crates/corpus-core/src/hunts.rs:398-510 | a part of the artifact loop writes only rows the whole loop writes |
| Hunts.LaterCommitsStayOut | crates/corpus-core/src/hunts.rs:398-405 | an artifact committed after the watermark never enters the pinned set |
| Hunts.TotalsCountFailures | crates/corpus-core/src/hunts.rs:406-539 | the timeout and failure counters are positive exactly when some pinned artifact ends so |
| Hunts.CountersInScans | crates/corpus-core/src/hunts.rs:406-539 | matched is the sum of the rules that the scans of the pinned artifacts name, timeouts and failures the numbers of pinned artifacts that end so |
| Hunts.StateInScans | crates/corpus-core/src/hunts.rs:534-539 | completed partial if and only if some pinned artifact is unreadable or its scan times out or fails, and completed otherwise |
| Hunts.RowsInScans | crates/corpus-core/src/hunts.rs:398-510 | a row is there if and only if the scan of a pinned artifact names its rule |
| Hunts.RowsComeFromMatches | crates/corpus-core/src/hunts.rs:398-510 | the rows of a hunt are exactly the rules named by matched pinned artifacts |
| Hunts.CleanVerdictIsExact | crates/corpus-core/src/hunts.rs:534-555 | completed without rows if and only if every pinned artifact is cached clean |
| HuntHistory.FullRun | crates/corpus-core/src/hunts.rs:323-555 | from any valid state, a full run succeeds exactly for a planned hunt and ends with the rows, counters and state that the scans of its pinned artifacts determine |
| HuntHistory.RerunAfterCrashes | crates/corpus-core/src/hunts.rs:323-555 | a planned hunt keeps its pinned artifacts through any history of cut runs, commits, forward scans, activations and other hunts, and the next full run ends as their scans determine |
| HuntHistory.RunFromEmpty | crates/corpus-core/src/hunts.rs:229-555 | the same for every history that starts from the empty database |
| HuntHistory.VerdictFollows | crates/corpus-core/src/hunts.rs:406-555 | rows, counters and state of an ended run, each said in the scans of the pinned artifacts |
| HuntInterleaving.Advance | crates/corpus-core/src/hunts.rs:362-555 | one step of a run, at most one write, keeps what is known about the run, leads where the code leads, and the final write ends the hunt right |
| HuntInterleaving.AdvanceScan | crates/corpus-core/src/hunts.rs:632-691 | the same for one step of a forward scan |
| HuntInterleaving.RunStays | crates/corpus-core/src/hunts.rs:398-540 | whatever somebody else writes, what is known about a run under way stays true |
| HuntInterleaving.Happen | crates/corpus-core/src/hunts.rs:323-737 | any one thing happens: every run and every scan under way stays right, nothing is taken back |
| HuntInterleaving.Interleaved | crates/corpus-core/src/hunts.rs:323-737 | after any interleaving from the empty database, and a forward scan that ended has every bundle it found active cached |
| HuntInterleaving.InterleavedRunEndsRight | crates/corpus-core/src/hunts.rs:534-555 | the write that ends a run leaves rows and state, and counters nobody else has written, as the scans of its pinned artifacts determine, whatever fell between its writes |
| HuntInterleaving.EndInScans | crates/corpus-core/src/hunts.rs:534-555 | the verdict of that write, in the scans |
| HuntInterleaving.RunStepwise | crates/corpus-core/src/hunts.rs:323-555 | left alone, a planned hunt run step by step ends, and ends right |
| HuntInterleaving.OverlappingPlansAgree | crates/corpus-core/src/hunts.rs:269-290 | two plannings of one hunt that both read no watermark pin the same one if and only if nothing is committed in between |
| CoverageHandoff.RunsAreRegular | crates/corpus-core/src/hunts.rs:398-517 | in every run commits are in order and unique, and every cached result stems from a forward scan that found the bundle active or from a hunt that has the artifact pinned |
| CoverageHandoff.CoverageIsExact | crates/corpus-core/src/continuous.rs:76-125 | hunts and forward scans done: every endpoint artifact is cached for the bundle if and only if each was the task of one of them |
| CoverageHandoff.OneHuntCoversExactly | crates/corpus-core/src/continuous.rs:76-125 | with one hunt for the bundle: if and only if the forward scan of every endpoint artifact above its watermark found the bundle active |
| CoverageHandoff.ReuseIsSafeExactly | crates/corpus-core/src/continuous.rs:84-110 | an activation that reuses a hunt misses nothing if and only if each earlier endpoint commit above its watermark was, or is later, scanned with the bundle active |
| CoverageHandoff.ReuseCheck | crates/corpus-core/src/continuous.rs:84-110 | the same as a check at the time of the activation: no forward scan above the watermark has begun without the bundle |
| CoverageHandoff.NoHoleBetweenHistoryAndForward | crates/corpus-core/src/continuous.rs:84-125 | watermark taken after activation, hunt and forward scans done: every endpoint artifact is cached for the bundle |
| CoverageHandoff.OlderWatermarkLeavesHole | crates/corpus-core/src/continuous.rs:84-110 | for any ids, a hunt planned, a commit scanned and then the activation: the commit is left to nobody |
| CoverageHandoff.RunToTheEnd | crates/corpus-core/src/hunts.rs:323-555 | on the tables: a hunt that is run whole is done |
| CoverageHandoff.ScanToTheEnd | crates/corpus-core/src/hunts.rs:613-737 | on the tables: a forward scan that ends well is done with every active bundle |
| Ingest.Server.Announce | crates/corpus-core/src/ingest.rs:158-229 | a known digest records occurrence and attempt and answers with the artifact; otherwise a new open session |
| Ingest.Server.StageUpload | crates/corpus-core/src/ingest.rs:232-255 | stages exactly for an open session of the tenant |
| Ingest.Server.Finalize | crates/corpus-core/src/ingest.rs:257-440 | the whole new state for every request and every cut: nothing without an open session of the tenant and staged bytes; a wrong size or digest commits nothing, is an error and fails the session; an unknown scope commits nothing; everything else stores bytes, row with their length, occurrence and attempt |
| Ingest.Server.Promote | crates/corpus-core/src/cas.rs:162-180 | put if absent: an existing object is left alone, the staged bytes go |
| Ingest.Server.ReadRange | crates/corpus-core/src/cas.rs:71-79 | exactly the part of the range that lies inside the object |
| Ingest.FinalizeKeepsSound | crates/corpus-core/src/ingest.rs:257-440 | wherever finalize stops, the invariant holds, nothing is taken back, and no foreign occurrence appears |
| Ingest.AnnounceKeepsSound | crates/corpus-core/src/ingest.rs:158-229 | the same for announce |
| Ingest.RefusalCommitsNothing | crates/corpus-core/src/ingest.rs:281-335 | unless an open session of the tenant has staged bytes of the size and digest named, for a known scope, no object, artifact, occurrence or commit is added, wherever the call stops |
| Ingest.AcceptedExactly | crates/corpus-core/src/ingest.rs:257-335 | a request is accepted if and only if its session is open and the tenant's, the staged bytes have its size and digest, and its scope is known |
| Ingest.VerdictInDetail | crates/corpus-core/src/ingest.rs:257-335 | which error is given when |
| Ingest.RefusalInDetail | crates/corpus-core/src/ingest.rs:281-335 | an uncut refusal for size or digest discards the staging and fails the session; a digest mismatch is recorded as an attempt; an unknown scope leaves the session open |
| Ingest.AcceptanceInDetail | crates/corpus-core/src/ingest.rs:337-406 | an uncut acceptance stores the bytes and a row with their length unless they were there, and closes session and staging |
| Ingest.EveryRunIsSound | crates/corpus-core/src/ingest.rs:158-440 | after any calls cut anywhere: rows have their bytes, committed sessions their artifact, nothing committed changes or reopens |
| Ingest.StoredBytesAreTheirDigest | crates/corpus-core/src/ingest.rs:291-345 | the bytes stored for an artifact row hash to its key in every reachable state |
| Ingest.RecordedSizeIsTheLength | crates/corpus-core/src/ingest.rs:281-356 | in every reachable state the size of an artifact row is the length of its stored bytes, unless two texts share its digest |
| Ingest.CommitFollowsStagedBytes | crates/corpus-core/src/ingest.rs:257-406 | a session commits the announced digest exactly when the staged bytes have it |
| Ingest.AnyBytesCommitUnderAnyAnnouncement | crates/corpus-core/src/ingest.rs:158-406 | announce, stage and finalize from the empty server commit any bytes under any other announced digest |
| Capture.Agent.Enqueue | crates/corpus-agent/src/state.rs:205-230 | one new row, unless an active candidate for the file exists |
| Capture.Agent.LeaseNextDue | crates/corpus-agent/src/state.rs:347-377 | picks the due candidate first by priority and age, and pushes its retry time ahead |
| Capture.Agent.NextSequence | crates/corpus-agent/src/state.rs:182-200 | the pair of boot id and number was never sent, and the server has no row under it |
| Capture.Agent.RefreshBootIdentity | crates/corpus-agent/src/main.rs:125-132 | a changed boot id restarts the sequence, and pairs stay unique |
| Capture.Agent.TakeRead | crates/corpus-agent/src/capture.rs:94-165 | the row after each outcome of the stable read; spool pressure burns no attempt |
| Capture.Agent.RetryOrFail | crates/corpus-agent/src/capture.rs:334-355 | a retry later with one more attempt, or a gap once the attempts are used up |
| Capture.BackoffDoubles | crates/corpus-agent/src/capture.rs:33-35 | the wait before a retry is five seconds, doubled with each attempt, up to five minutes |
| Capture.Agent.ProcessCandidate | crates/corpus-agent/src/capture.rs:63-315 | from any persisted state and cut anywhere, the promises of the states hold; a run that ends leaves the candidate complete, closed with a gap, put off or retried; undisturbed, it is complete; a completed candidate's spool file is gone, read in this run or before, and any other run leaves the spool as it was but for the file it wrote |
| Capture.Agent.RunAgent | crates/corpus-agent/src/capture.rs:360-400 | over every schedule: acknowledged candidates are on the server with an occurrence, others still have their bytes, no pair is sent twice; a spool file that neither an active candidate nor a gap names was left by a run cut before its HASHED row or between COMPLETE and the removal, and every such run leaves one for good |
| Capture.StraysAfterRun | crates/corpus-agent/src/capture.rs:63-315 | what one run adds to the files nobody names: the file it wrote, if it is cut before the HASHED row; its own, if it is cut behind COMPLETE; otherwise nothing |
| Capture.RowStepKeepsGood | crates/corpus-agent/src/state.rs:233-284 | one row update that respects its own state's promise keeps the whole invariant |
| Capture.NextPairIsNew | crates/corpus-agent/src/state.rs:182-200 | the counter is past every pair of this boot |
| RollingHash.Roll.Update | crates/corpus-core/src/similarity/fuzzy.rs:51-59 | the ring buffer holds the last seven bytes, the sums never underflow, and the value is the window's |
| RollingHash.Slide | crates/corpus-core/src/similarity/fuzzy.rs:51-59 | what one byte does to the sum, the weighted sum, the shift register and the value |
| RollingHash.ShiftXorIsOfWindow | crates/corpus-core/src/similarity/fuzzy.rs:57-57 | the register that has seen every byte holds what seven bytes give |
| RollingHash.OnlyLastSevenCount | crates/corpus-core/src/similarity/fuzzy.rs:51-59 | equal last seven bytes give equal values, whatever came before |
| RollingHash.RollInDetail | crates/corpus-core/src/similarity/fuzzy.rs:51-59 | the value in full: the sum of seven bytes, their weighted sum and the shifted register, modulo 2^32; fewer bytes count as if zeros stood in front |
| PieceHash.TableMultiplies | crates/corpus-core/src/similarity/fuzzy.rs:18-27 | the table is multiplication by the FNV prime in six bits |
| PieceHash.ByteHashIsFnvStep | crates/corpus-core/src/similarity/fuzzy.rs:29-32 | one step of the six-bit hash gives the low six bits of one step of 32-bit FNV |
| FuzzyDigest.HashWithBlock | crates/corpus-core/src/similarity/fuzzy.rs:87-123 | one pass gives both levels as if each had been computed alone, and their tails; doubling the block size in 32 bits changes nothing |
| FuzzyDigest.CapTruncates | crates/corpus-core/src/similarity/fuzzy.rs:101-114 | a smaller cap gives the longer text cut to it, and the same level while the cap is not passed |
| FuzzyDigest.CutsNest | crates/corpus-core/src/similarity/fuzzy.rs:101-108 | a cut at twice the block size is a cut at the block size |
| FuzzyDigest.WrapIsHarmless | crates/corpus-core/src/similarity/fuzzy.rs:101-108 | where the first level cuts, the wrapped double of the block size cuts exactly where the true one does |
| FuzzyDigest.SecondIsFirstAtTwice | crates/corpus-core/src/similarity/fuzzy.rs:87-123 | the second string is the first one at twice the block size cut to 31, and the tails agree when that has at most 31 |
| FuzzyDigest.PrintedShape | crates/corpus-core/src/similarity/fuzzy.rs:70-82 | at most 64 and 32 characters, all base64 |
| FuzzyDigest.NextCharacter | crates/corpus-core/src/similarity/fuzzy.rs:94-115 | from one written character to the next: it comes where the rolling value is one below a multiple of the block size, and is the low six bits of the FNV hash of the bytes in between |
| FuzzyDigest.PrintedInDetail | crates/corpus-core/src/similarity/fuzzy.rs:74-82 | block size in decimal, up to 63 and 31 characters, and the open piece behind each unless the rolling value is zero |
| FuzzyDigest.ChosenInDetail | crates/corpus-core/src/similarity/fuzzy.rs:64-73 | three times a power of two: down from the least one whose 64 characters cover the file to the first that gives 32 characters |
| FuzzyDigest.FuzzyHash | crates/corpus-core/src/similarity/fuzzy.rs:63-84 | the search ends, at the chosen block size, and prints both levels there, if and only if the file has at most 192 GiB |
| FuzzyDigest.ChosenIsUnique | crates/corpus-core/src/similarity/fuzzy.rs:64-73 | the description of the chosen block size fits one size only |
| FuzzyCompare.StripSequences | crates/corpus-core/src/similarity/fuzzy.rs:125-134 | the loop cuts every run of equal characters to three |
| FuzzyCompare.CollapseIsIdempotent | crates/corpus-core/src/similarity/fuzzy.rs:125-134 | stripping a stripped text changes nothing |
| FuzzyCompare.CollapseInDetail | crates/corpus-core/src/similarity/fuzzy.rs:125-134 | exactly the texts without four equal characters in a row stay as they are |
| FuzzyCompare.Levenshtein | crates/corpus-core/src/similarity/fuzzy.rs:136-157 | two swapped rows compute the recursive edit distance |
| FuzzyCompare.EditDistanceIsALowerBound | crates/corpus-core/src/similarity/fuzzy.rs:136-157 | no list of edits from one text to the other is cheaper |
| FuzzyCompare.EditDistanceIsReached | crates/corpus-core/src/similarity/fuzzy.rs:136-157 | some list of edits costs exactly the distance |
| FuzzyCompare.EditDistanceSymmetric | crates/corpus-core/src/similarity/fuzzy.rs:136-157 | the same in both directions |
| FuzzyCompare.EditDistanceBounds | crates/corpus-core/src/similarity/fuzzy.rs:136-146 | at most the longer text, and zero exactly for equal texts |
| FuzzyCompare.CommonSubstring | crates/corpus-core/src/similarity/fuzzy.rs:159-172 | true exactly when the texts share seven consecutive characters |
| FuzzyCompare.ScoreInRangeExactly | crates/corpus-core/src/similarity/fuzzy.rs:174-187 | at most 100, and negative if and only if the texts share a block and the 32-bit cap has wrapped |
| FuzzyCompare.ScoreInNumbers | crates/corpus-core/src/similarity/fuzzy.rs:174-187 | zero without seven common characters; otherwise 100 less the hundredths that the distance is of both lengths, rounded down in two steps, and never above the cap |
| FuzzyCompare.ScoreFollowsDistance | crates/corpus-core/src/similarity/fuzzy.rs:174-187 | in hundredths never below the share of both texts that the edits leave, and less than 164 sixty-fourths above it |
| FuzzyCompare.ParseOfPrinted | crates/corpus-core/src/similarity/fuzzy.rs:191-195 | parsing a printed digest gives back block size and both strings |
| FuzzyCompare.Compare | crates/corpus-core/src/similarity/fuzzy.rs:190-221 | the method computes the score function in every case, malformed texts and wrapping block sizes included |
| FuzzyCompare.CompareInDetail | crates/corpus-core/src/similarity/fuzzy.rs:190-221 | which strings are scored at which block size, when the sizes are equal, neighbours, or neither |
| FuzzyCompare.CompareInRangeExactly | crates/corpus-core/src/similarity/fuzzy.rs:189-221 | for any two texts: at most 100, and at least 0 if and only if the caps of the texts compared have not wrapped |
| FuzzyCompare.PrintedCompareInRange | crates/corpus-core/src/similarity/fuzzy.rs:189-221 | the digests of any two files of up to three GiB compare to 0 to 100 |
| FuzzyCompare.FullTextsWrap | crates/corpus-core/src/similarity/fuzzy.rs:174-187 | at the next block size two full digests that differ in one character compare to the least 32-bit number |
| FuzzyCompare.CompareSymmetric | crates/corpus-core/src/similarity/fuzzy.rs:190-221 | the same in both directions for any two texts, also where block sizes wrap |
| FuzzyCompare.CompareWithSelf | crates/corpus-core/src/similarity/fuzzy.rs:190-221 | 100 for every digest that is printed, against itself |
| Spool.NonceIsInjective | crates/corpus-agent/src/spool_crypto.rs:28-33 | different prefixes or chunk numbers give different nonces |
| Spool.DecryptFile | crates/corpus-agent/src/spool_crypto.rs:249-280 | the loop returns what the recursive reader returns, each error included |
| Spool.RoundTrip | crates/corpus-agent/src/spool_crypto.rs:249-280 | decrypting what was written gives the bytes back, for every chunking |
| Spool.FileLayout | crates/corpus-agent/src/stable_read.rs:118-162 | version 2, sixteen bytes of prefix, and at the place of each chunk its length in four bytes and what was sealed under prefix and chunk number |
| Spool.IdealIsMet | crates/corpus-agent/src/spool_crypto.rs:249-280 | for everything a key may have sealed there is a cipher that opens that and nothing else |
| Spool.EveryFileHasALog | crates/corpus-agent/src/spool_crypto.rs:28-33 | every file can be among what a key has sealed, next to any files under other prefixes |
| Spool.AcceptedFilesAreInitialRuns | crates/corpus-agent/src/spool_crypto.rs:249-280 | with an AEAD that opens what the key has sealed and nothing else, a file with this prefix is accepted if and only if it is the writer's output cut after some chunk |
| Spool.SpoolDir.ReadOnce | crates/corpus-agent/src/stable_read.rs:92-193 | which attempts succeed, with what, and which file they leave in the spool |
| Spool.SpoolDir.StableRead | crates/corpus-agent/src/stable_read.rs:64-90 | at most the allowed retries, and only after changed reads; what is returned is one unchanged state of the file |
| Spool.SpoolKeepsContent | crates/corpus-agent/src/stable_read.rs:92-193 | the spool file of a successful read decrypts to the content that was hashed |
| Utf16.LossyOfEncoded | crates/corpus-agent/src/sensors/usn.rs:115-119 | decoding the units of a text gives the text back |
| Utf16.LosslessWhenPaired | crates/corpus-agent/src/sensors/usn.rs:115-119 | encoding a decoded name gives its units back if and only if every surrogate is paired |
| Usn.ParseUsnRecords | crates/corpus-agent/src/sensors/usn.rs:88-125 | the offset loop, in bounds on every buffer, gives the recursive parse |
| Usn.TruncationGivesPrefix | crates/corpus-agent/src/sensors/usn.rs:88-125 | parsing a cut buffer gives a prefix of parsing the whole |
| Usn.ParseDistributes | crates/corpus-agent/src/sensors/usn.rs:88-125 | a fully consumed stream parses apart from what is appended |
| Usn.ParsingStopsAtDamage | crates/corpus-agent/src/sensors/usn.rs:92-103 | what is too short, has a length below 60 or beyond the buffer, or another version, ends the parse and loses nothing before it |
| Usn.ParsingSkipsBadNames | crates/corpus-agent/src/sensors/usn.rs:104-122 | a record whose name would leave it is stepped over, and what follows is parsed |
| Usn.ParseInvertsPrint | crates/corpus-agent/src/sensors/usn.rs:92-122 | printed records are read back, names included, whatever the other fields, the padding and the bytes behind |
| Bytes.LittleEndian | crates/corpus-agent/src/sensors/usn.rs:92-114 | numbers and 16-bit units are read with the least byte first |
| Rdcw.ParseNotifyRecords | crates/corpus-agent/src/sensors/rdcw_parse.rs:25-56 | the offset loop, in bounds on every buffer, ends and gives the recursive parse |
| Rdcw.TruncationGivesPrefix | crates/corpus-agent/src/sensors/rdcw_parse.rs:20-56 | parsing a cut buffer gives a prefix of parsing the whole |
| Rdcw.ParsingStopsAtDamage | crates/corpus-agent/src/sensors/rdcw_parse.rs:28-50 | too short, an odd or too long name, or a link into the entry or beyond the buffer: nothing of that entry is taken |
| Rdcw.ParseInvertsPrint | crates/corpus-agent/src/sensors/rdcw_parse.rs:28-54 | chained entries with any names and padding are read back |
| Authentihash.FeedOutside | crates/corpus-core/src/similarity/extract.rs:152-168 | the loop feeds exactly the bytes no range covers, in order, for ranges that overlap, nest or run past the end |
| Authentihash.PeAuthentihash | crates/corpus-core/src/similarity/extract.rs:122-169 | exactly which files have a hash: both magics, and headers inside the file; and of which bytes |
| Authentihash.ImageHash | crates/corpus-core/src/similarity/extract.rs:119-169 | for every PE32 and PE32+ file put together from its parts: exactly the checksum, the certificate directory entry and the certificates stay out of the hash |
| Authentihash.SigningHashesPadding | crates/corpus-core/src/similarity/extract.rs:119-169 | new checksum, filled directory entry, padding and appended certificates add exactly the padding to the hashed bytes |
| Authentihash.SigningKeepsHash | crates/corpus-core/src/similarity/extract.rs:119-169 | signing an unsigned file hashes the same bytes if and only if it needed no padding |
| Authentihash.ResigningKeepsHash | crates/corpus-core/src/similarity/extract.rs:119-169 | two signatures of one file hash the same bytes if and only if they pad alike |
| Rules.StripComments | crates/corpus-core/src/rules.rs:26-47 | the index loop keeps the bytes outside comments and writes each as a char |
| Rules.KeptByPieces | crates/corpus-core/src/rules.rs:26-47 | what stands before, between and behind comments is kept, the newline of a line comment too, and an unclosed block comment takes the rest |
| Rules.StripLeavesNoComment | crates/corpus-core/src/rules.rs:24-47 | no comment starts in the result, and the change of bytes above 0x7f makes none |
| Rules.StripIsIdempotentExactly | crates/corpus-core/src/rules.rs:26-47 | stripping twice is stripping once if and only if what stands outside comments is ASCII |
| Rules.StripChangesAccents | crates/corpus-core/src/rules.rs:42-42 | an accented letter becomes four bytes, and eight the second time |
| Rules.BundleDigest | crates/corpus-core/src/rules.rs:98-111 | the hasher is fed the domain, the sorted rules and the configuration |
| Rules.BundleInputIdentifies | crates/corpus-core/src/rules.rs:95-111 | for texts without zero bytes, the same bytes are fed if and only if every id has the same rules in the same order and the configuration is the same |
| Rules.BundleIgnoresOrder | crates/corpus-core/src/rules.rs:95-111 | with one source for each id, the same bytes are fed if and only if the rules are the same up to order and the configuration is the same |
| Registry.TokensByPieces | crates/corpus-core/src/rules.rs:53-56 | the tokens are the longest stretches of letters, digits and underscores |
| Registry.NameInDetail | crates/corpus-core/src/rules.rs:57-82 | a name is parsed if and only if one token is `rule` and the next one, the name, begins with a letter or an underscore |
| Registry.ParsedNameIsIdentifier | crates/corpus-core/src/rules.rs:51-82 | a parsed rule name is a YARA identifier, so it holds no zero byte |
| Registry.NameIgnoresComments | crates/corpus-core/src/rules.rs:51-82 | a rule name is never found inside a comment, and stripping changes no name |
| Registry.PanicsExactly | crates/corpus-core/src/rules.rs:51-82 | the index leaves the token list exactly when the only word `rule` outside comments is the last one |
| Registry.BareRulePanics | crates/corpus-core/src/rules.rs:65-65 | the source `rule` alone does it |
| Registry.RuleRegistry.CreateRule | crates/corpus-core/src/registry.rs:47-75 | when a rule is accepted and when the call panics; a known id keeps its source, and a second source for it is refused |
| Registry.RuleRegistry.Publish | crates/corpus-core/src/registry.rs:108-192 | which lists of rules can be published, under which digest, and the whole new bundle table; a list with a rule twice is refused unless its digest is stored |
| Registry.PublishedDigestIdentifies | crates/corpus-core/src/registry.rs:108-154 | two bundles, published at any two times, feed the same bytes if and only if they name the same rules |
| Registry.FoundBundleIsTheOneNamed | crates/corpus-core/src/registry.rs:158-170 | a call that finds its digest gets the bundle of exactly its rules, each once, unless SHA-256 collides on the two inputs |

## Left out

- HTTP, mutual TLS, the command line, TAXII, MalwareBazaar, OCI and CAPE clients, Windows and fanotify calls.
- Inside SHA-256, XChaCha20-Poly1305, YARA-X and the executable parsers: functions here.
- Rounding of `f64`: scores are exact fractions, thresholds exact decimals.
- More than one tenant in the similarity and hunt tables, and more than one model version: both only select rows.
- Database isolation: each statement or transaction is one step, and two calls on the similarity tables do not overlap; losing a write the database confirmed is not modelled.
- CAS rename and directory syncing: a promotion is one step.
- Capture.Agent.RunAgent: does not model several workers of one agent at once, because the lease with its renewal task is assumed to keep candidates apart; calls of other clients do interleave with each call of a run.
- Capture.Agent.ProcessCandidate: does not claim that every capture run ends, because errors that reach the worker loop retry without bound; answers other than present and upload-required are not modelled.
- Gap flushing, heartbeat counters, provenance, triggers, job rows of enrichment and audit rows.
- Hunts.HuntDb.ExecuteHunt: does not recover a hunt left RUNNING by itself, because the code has no such step; a rerun is started from outside.
- HuntInterleaving.InterleavedRunEndsRight: does not fix the counters while two runs of one hunt overlap, because each run writes its own and the last one stays.
- HuntInterleaving.Happen: does not take planning, activation and claiming apart between their statements, because overlapping plannings of one hunt may move its watermark; OverlappingPlansAgree says exactly when they do not.
- Planning a journal resume and parsing the journal header: one match each.
- Neighborhood.RunQuery: does not model the cap on the response size in bytes, because it only turns a finished response into an error.
- Seed resolution, feature extraction, LSH bands and candidate retrieval.
- DOT and GraphML rendering, severity text, analyzer registry.
