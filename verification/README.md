# arcade: verified model

A Dafny model of the parts of arcade (a Bitcoin SV transaction processor) that are pure logic and hard to get right,
with proofs that they do what the code's comments promise. It has three large parts and four small ones.

**Merkle proofs** (`bump/`). A block's transactions are split into subtrees. For each subtree a *STUMP* arrives: a
partial Merkle path in the BSV Unified Merkle Path format (BRC-74). arcade merges the variants of one subtree's STUMP,
swaps the coinbase placeholder for the real coinbase txid, places every path at its offset in the block, lifts a short
final subtree, pads odd levels and completes the tree. The result is one *compound* path, from which a minimal path per
transaction is cut. The node hash is an uninterpreted constant (`MerkleTree.NodeHash`), and a
tree is `MerkleTree.Node` over the block's leaves. A path *agrees* with a tree when its hashes are the tree's nodes and
its duplicate flags stand right of the last node of an odd level. Main results:
`DeliveredStumps.EveryJudgedLeafProved` (from STUMPs that agree with the block and climb from the leaves they are judged
by, with those climbs stored where the filter acts on them, every judged leaf is in the compound and folds to the header's
Merkle root, whichever services sent them),
`HeaderProof.BuildProvesLeaf` (the same of every climb of every variant that is kept, with the one exception stated
exactly), `StoredLeaves.LeafStoredExactly` (which leaves the compound stores), `SingleProof.SingleBuildProvesLeaf` (one
subtree), `BlockPadding.PassesAgree` (the one-pass, map-indexed completion is the two-pass one) and
`CompoundIndexing.IndexAgreesExactly`. `FourLeafBlock`, `ThreeLeafBlock` and `EightLeafBlock` build whole blocks: two
that are proved, so the theorem's hypotheses are met, and two where a promise fails.

**Dependency families** (`services/api_server/partition_keys.go`, `kafka/memory_broker.go`). Transactions connected by
in-batch spends get one partition key, found by union-find, and are published in order. Main results:
`Families.FamilyPartitionKeys` with `Families.SameKeyIffConnected`, `UnionFind.Forest.Find`, and
`FamilyDelivery.PublishSubmission`, which holds under any interference by other producers, subscribers and a closer.

**Registration pool** (`merkleservice/pool.go`). A state machine over the pool's atomic steps; endpoints answer
whatever they like. Main result: `PoolProof.NeverLostSilently`, over every interleaving.

**Companions**: the boundary-safe pager (`Paging`), the status lattice and the "seen" callback prefilter (`Statuses`,
`SeenCallback`), tracker hydration (`Tracker`) and the fee floor (`Fees`).

Objects the source updates in place are classes here (`MerklePaths.MerklePath`, `UnionFind.Forest`,
`Broker.MemoryBroker`, `CatchupQueues.CatchupQueue`, `Verdicts.EndpointBreaker`, `Tracker.TxTracker`,
`SeenCallback.StatusStore`, `CompoundIndexing.CompoundIndex`), and its loops are methods with invariants. Each such
method is tied to a function on values, and the lemmas are about those functions. Where an operation is used on input
its guarantees do not cover (a path with two elements at one offset), its contract is conditional rather than its
precondition narrow.

Conventions: `Option` stands for nil and for input that does not parse; calls into code outside the repository, clocks
and the network are parameters or free choices. Uninterpreted constants are the node hash, FNV-1a (`Partitions.FNV1A`),
txid parsing (`Tracker.PARSE_HASH`) and marshalling (`Broker.MARSHALS`). The SDK's root computation, which is not part
of the repository, is `MerklePaths.ComputeRoot`, written from BRC-74's procedure for calculating the Merkle root: it reads
stored siblings only. An implementation that also derived a missing sibling from the nodes below it would fold more.

## Findings

- Three promises hold only under a condition, and the condition is proved to be exact. `Paging.HeightZeroSkipped`
  shows a table whose scan skips a height-0 row; `Paging.ForEachBlockProcessing` states that a scan from height 0 is
  complete if and only if it is not cut (`Paging.CutAtZero`). `SeenCallback.PendingRetryLost` shows a tracked status for
  which the prefilter, described as provably safe, drops a live update; `Statuses.FinalExactly`,
  `Statuses.FinalUnconditionally` and `SeenCallback.PrefilterExactly` say exactly when it is safe.
  `CompoundIndexing.RepeatedHashDiffers` shows the index and the scan answering differently; they agree if and only if
  the first and last leaf of the txid are one slot.
- `Tracker.HydrationIsPruning`: the scan's cutoff and the tracker's own test agree if and only if no mined row's
  `height + 100` wraps.
- Once a STUMP is delivered for a final subtree of a single leaf, the compound proves nothing at all, however many
  subtrees there are. `FinalSubtree.FinalSlotEmpty`: the subtree's slot of the subtree-root layer stays empty.
  `FinalSubtree.NothingProved`: no txid has a root in the compound. `ThreeLeafBlock.ProveNothing` builds such a block. The
  condition is exact: `DeliveredBlock.CompoundProvesLeaf` and `HeaderProof.BuildProvesLeaf` state that a climbing leaf
  folds to the block's root if and only if no STUMP was delivered for a one-leaf final subtree.
- With a root computation that reads stored siblings only, as `MerklePaths.ComputeRoot` does, the compound does not
  always cover "the union of every tracked tx any service knew" (`bump/bump.go:651-654`). With one that derives a
  missing sibling from its children, the STUMP dropped here would match. `EightLeafBlock.LoseTracked` builds a block
  from two correct STUMPs of subtree 0 and loses a tracked leaf: the first carries leaf 0, the coinbase swap clears
  its spine, the filter folds without recomputing it, and the variant is dropped because another one matches.
  `StoredLeaves.LeafStoredExactly` and `VariantFilter.NothingDroppedExactly` say exactly what is lost,
  `VariantFilter.MatchesExactly` and `DeliveredStumps.SwappedMatchesExactly` exactly which variants match, and
  `DeliveredStumps.EveryJudgedLeafProved` that nothing is lost when, in each subtree with several variants one of
  which matches, all store their judged climbs.
- `Statuses.TerminalExactly`: of the terminal statuses, which the source says are left only by the promotion of MINED to
  IMMUTABLE (`models/transaction.go:127-132`), exactly MINED and IMMUTABLE are; REJECTED and DOUBLE_SPEND_ATTEMPTED move on.
- `Partitions.PartitionForKey` is defined unless the partition count is a multiple of 2^32, where the source divides by
  zero.

## Model

| member | source | states |
|---|---|---|
| MerkleTree.TopTreeRoot | bump/bump.go:992-1005 | the loop computes the root of the Merkle tree over the given hashes |
| MerkleTree.WidthAtHeight | bump/bump.go:1054-1064 | ceil-log2(n) levels narrow n nodes to one, no fewer do, and the level below the top has exactly two |
| MerkleTree.DeriveFinalSubtreeLift | bump/bump.go:1021-1036 | the result is the least lift within the internal height whose lifted top-tree root is the header's, or 0 when none is |
| MerkleTree.TrueLiftReproduces | bump/bump.go:1006-1036 | the number of levels by which the block's final subtree is short always reproduces the header |
| MerkleTree.SubtreeRootLayer | bump/bump.go:779-793 | a subtree's root, self-hashed once per missing level for the final one, is the block tree's node at the subtree-root layer |
| MerkleTree.NodeUnder | bump/bump.go:741-760 | a subtree's node, shifted by the subtree's index, is the block's node |
| MerklePaths.AddLeaf | bump/helpers.go:9-14 | the path is widened to the level as needed and the element is appended there |
| MerklePaths.FoldAgrees | bump/bump.go:843-875 | in a path that agrees with a tree, folding succeeds exactly when every sibling of the climb is stored, and gives the tree's node |
| MerklePaths.FoldReachesRoot | bump/bump.go:538-560 | a stored full climb folds to the tree's root |
| FillHashes.ComputeMissingHashes | bump/helpers.go:33-67 | every slot holds what was stored or what its children determine, and nothing else is added |
| FillHashes.FillLevelByScan | bump/helpers.go:34-66 | one level's parents are computed pair by pair, each once |
| FillHashes.ComputeAndPadCompound | bump/bump.go:1050-1118 | every slot holds what was stored, what its children determine, or the padding of an odd level at or above the subtree-root layer |
| FillHashes.FillLevelAbove | bump/bump.go:1066-1112 | the map-indexed inner loop computes the same parents as the scan |
| FillHashes.PadLevel | bump/bump.go:1056-1064 | an odd level gets its duplicate flag right of the last real node unless something stands there |
| BlockPadding.PadAndComputeBlockLevel | bump/helpers.go:86-135 | the second pass pads odd levels and computes the block's real parents from fromLevel up |
| BlockPadding.TwoPassesAreOne | bump/helpers.go:33-135 | filling first and padding after gives each slot what the single compound pass gives it |
| BlockPadding.PassesAgree | bump/bump.go:1050-1118 | computeMissingHashes followed by padAndComputeBlockLevel yields the slots of computeAndPadCompound, for every path with distinct in-range offsets |
| Coverage.CompletionAgrees | bump/bump.go:1050-1118 | completing a path that agrees with a tree gives a path that agrees with it |
| Coverage.ClimbStored | bump/bump.go:1050-1118 | the completed path stores a climb exactly when every sibling was stored or computable |
| Coverage.BlockLevelsFull | bump/bump.go:1050-1118 | above a full subtree-root layer every real node of the block is there |
| Coverage.BlockClimb | bump/bump.go:1050-1118 | from any slot of a full subtree-root layer the climb to the top is complete, whatever the number of subtrees |
| Coverage.FilledCarriesOver | bump/bump.go:741-760 | what a subtree's path has or can compute, a block path that includes it has or can compute |
| TopLevels.LayerFoldsToTop | bump/bump.go:1050-1118 | once the subtree-root layer is full, folding from any slot through the padding gives topTreeRoot of the hashes, for every N >= 2 |
| Coinbase.ApplyCoinbaseToStump | bump/bump.go:222-276 | level by level, the left spine is cleared and leaf 0 replaced, or walked along the coinbase path until a sibling is missing or has no hash |
| Coinbase.CorrectedSlot | bump/bump.go:222-276 | slot by slot, for any coinbase path or none: off the spine nothing changes; a STUMP with leaf 0 gets the txid there and loses its spine; otherwise each untracked spine node takes the walk's hash as far as the walk gets, and a tracked one, or one beyond it, is kept |
| Coinbase.CorrectionAgrees | bump/bump.go:222-276 | a STUMP that agrees with the placeholder tree becomes, in either branch, one that agrees with the real tree |
| Coinbase.ClimbAfterCorrection | bump/bump.go:229-246 | a delivered climb survives the walking branch always, and the clearing branch exactly when the spine node it folds with can be recomputed |
| Coinbase.SpineClimbServes | bump/bump.go:229-246 | a STUMP that carries leaf 0's own climb loses no climb to the correction |
| Coinbase.StoredClimbAfterCorrection | bump/bump.go:222-276 | without recomputation, a stored climb is still stored after the correction exactly when the STUMP has no leaf 0 or the climb starts from leaf 0 or leaf 1 |
| Coinbase.SpineIsTree | bump/bump.go:256-275 | walking the coinbase path up from the real coinbase visits the real tree's leftmost nodes |
| Coinbase.CorrectedSubtree0Root | bump/bump.go:581-592 | the method returns the fold of the coinbase path up to the internal height it implies, or nothing |
| Coinbase.SpineFoldIsTree | bump/bump.go:298-335 | that fold is the real tree's leftmost node, so subtree 0's corrected root |
| SingleSubtree.ExtendSubtreeToBlockRoot | bump/bump.go:174-193 | the coinbase path's spine siblings are appended from the internal height up until one is missing or has no hash |
| SingleSubtree.ExtensionReachesRoot | bump/bump.go:174-193 | every leaf whose climb the subtree's path stores then folds to the coinbase path's root |
| Variants.MergeLevel | bump/bump.go:935-966 | two levels merge exactly when no offset carries two hashes; the merge is then slot by slot, a hash winning over a flag and tracked marks OR-ed |
| Variants.UnionMerklePath | bump/bump.go:935-966 | the union succeeds exactly when the paths carry no two hashes at one slot, and has exactly the merged slots |
| Variants.FoldCharacterized | bump/bump.go:899-966 | a merged slot is there if any variant has it, carries any variant's hash and any variant's tracked mark |
| Merging.MergeStumpVariants | bump/bump.go:899-929 | merging succeeds exactly when every STUMP parses and no two variants of a subtree disagree, and otherwise names the subtree of the first STUMP that does not parse or disagrees; it lists each subtree once, in order of first sight, with the merge of its variants |
| Merging.MergeOrderIndependent | bump/bump.go:899-966 | the merged slots do not depend on the order or repetition of the variants |
| Merging.MergeAgrees | bump/bump.go:899-966 | variants that agree with a tree merge to a path that agrees with it |
| Merging.MergeKeepsClimb | bump/bump.go:899-966 | every climb some variant had, the merged path has |
| Merging.AgreeingAreConsistent | bump/bump.go:950-958 | variants of one tree never disagree |
| Merging.Level0Txids | bump/bump.go:969-987 | the txids are every level-0 hash, each once, in order |
| Merging.Level0HashesExact | bump/bump.go:969-987 | exactly the hashes at level 0 are listed, and none twice |
| VariantFilter.VariantFoldsToRoot | bump/bump.go:843-875 | a variant matches exactly when it is tall enough and, corrected, all its judged leaves fold to the subtree's root |
| VariantFilter.DropVariantsOffSubtreeRoot | bump/bump.go:811-837 | what is kept is decided by count, by whether any variant matches, and by whether this one does, in delivery order |
| VariantFilter.FilterGuarantees | bump/bump.go:800-837 | no matching variant is dropped, no subtree loses all its variants, and where one of several matches only matching ones stay |
| VariantFilter.NothingDroppedExactly | bump/bump.go:811-837 | everything delivered is kept if and only if, in each subtree with several variants, all match or none does |
| VariantFilter.LeafHashesExact | bump/bump.go:843-866 | a variant is judged by exactly the hashes of its tracked leaves, or of all its leaves |
| VariantFilter.MatchesExactly | bump/bump.go:843-875 | a variant that agrees with its subtree matches if and only if every judged climb is stored; a lone leaf, which the root computation takes for the root, matches if and only if it is the root |
| Compound.PlaceStump | bump/bump.go:736-760 | a subtree's levels, corrected for the coinbase, are added at offsets shifted by index and level |
| Compound.PlaceLift | bump/bump.go:762-771 | the lift's duplicate flags are added at each level between the final subtree's natural height and the common one |
| Compound.SeedRoots | bump/bump.go:779-793 | the subtree-root layer is seeded for exactly the slots without a STUMP, the final one self-hashed once per lifted level |
| Compound.AssembleFullPath | bump/bump.go:55-156 | a bad index or an unparseable STUMP fails; otherwise the path is the corrected, shifted, seeded and completed STUMP, or for one subtree its extension |
| BuildCompound.BuildCompoundBump | bump/bump.go:631-798 | subtreeHashes[0] is overwritten by the coinbase-corrected root; the build fails exactly when there are no STUMPs, one kept does not parse, two kept variants disagree or a merged path is too short, and the error names the first such subtree; otherwise the path completes the kept, merged, corrected, placed, lifted and seeded STUMPs |
| BuildCompound.PlaceAll | bump/bump.go:730-776 | placing stops exactly at the first path shorter than its subtree needs and names it, and otherwise places all paths |
| BlockProof.PlacedLevelFits | bump/bump.go:741-760 | placed elements are the block's nodes and no two collide |
| BlockProof.UnfilledFits | bump/bump.go:700-793 | everything placed, lifted and seeded agrees with the block's tree, at distinct offsets |
| BlockProof.ClimbToLayer | bump/bump.go:741-771 | from a leaf that climbs its subtree the compound climbs to the subtree-root layer, through the lift's flags if need be |
| BlockProof.CompletionProvesLeaf | bump/bump.go:1050-1118 | once every slot of the layer is placed or seeded, such a leaf folds to the block's root |
| DeliveredBlock.CompoundProvesLeaf | bump/bump.go:700-798 | in the completed compound of paths that agree with the block, every leaf a path climbs from is stored, and folds to the block's root if and only if no path was placed for a one-leaf final subtree, whichever other slots are placed and whichever seeded |
| FinalSubtree.FlagsAreSeed | bump/bump.go:762-771 | k duplicate flags above the final subtree's root give the node that seeding the root self-hashed k times gives |
| FinalSubtree.FinalSlotEmpty | bump/bump.go:747-771 | a delivered one-leaf final subtree leaves its slot of the subtree-root layer empty |
| FinalSubtree.OthersUnproved | bump/bump.go:747-771 | then no leaf of any other subtree folds in the compound, for every number of subtrees |
| FinalSubtree.NothingProved | bump/bump.go:747-771 | and the final leaf is not stored, so no txid has a root in the compound |
| HeaderProof.RootsCorrected | bump/bump.go:643-647 | overwriting the first hash by the coinbase-derived root turns the delivered roots into the block's subtree roots |
| HeaderProof.LiftDerived | bump/bump.go:1021-1036 | when no smaller lift also reproduces the header, the derived lift is the block's |
| HeaderProof.CorrectedClimbsExactly | bump/bump.go:222-276 | once missing hashes are computed, a leaf climbs after the correction if and only if it climbed as delivered and, if the STUMP carries leaf 0, leaf 0 did too |
| HeaderProof.SwappedPart | bump/bump.go:736-745 | subtree 0's merged variants, corrected, agree with the real subtree and keep every delivered climb |
| HeaderProof.ShapeFound | bump/bump.go:671-711 | the internal height and lift the build works out are the block's |
| HeaderProof.BuildSucceeds | bump/bump.go:631-798 | a delivery whose kept variants are well delivered and do not disagree is built |
| HeaderProof.BuildProvesLeaf | bump/bump.go:631-798 | for every block of two or more subtrees, in the path BuildCompoundBUMP returns every leaf from which a kept variant climbs its subtree is stored, and folds to the block's Merkle root if and only if no STUMP was kept for a one-leaf final subtree |
| HeaderProof.BuildProvesNothing | bump/bump.go:747-798 | with such a STUMP the compound that is built proves no txid |
| DeliveredStumps.SwappedMatchesExactly | bump/bump.go:843-875 | where the coinbase is swapped in, an agreeing variant matches if and only if its judged climbs were delivered and, if it carries leaf 0, start from leaf 0 or leaf 1 |
| DeliveredStumps.SoundDelivery | bump/bump.go:811-837 | STUMPs that agree with the block and climb from the leaves they are judged by are all kept, if those climbs are stored in each subtree with several variants one of which matches |
| DeliveredStumps.SoundBuilt | bump/bump.go:631-798 | such a delivery is built if and only if no two variants of a subtree disagree |
| DeliveredStumps.EveryJudgedLeafProved | bump/bump.go:651-654 | in what is built of such a delivery, every leaf any delivered STUMP is judged by (its tracked leaves, or all if it marks none) is stored and folds to the block's Merkle root, but for the one-leaf final subtree; a lone STUMP's climbs need not be stored, only computable |
| StoredLeaves.LeafStoredExactly | bump/bump.go:651-798 | from STUMPs that agree with the block, however incomplete, the compound stores a leaf if and only if some STUMP that carries it is kept |
| EightLeafBlock.BothAgree | bump/bump.go:651-654 | the two STUMPs of the eight-leaf block agree with subtree 0 over the placeholder |
| EightLeafBlock.BothClimb | bump/bump.go:651-654 | and store the climbs of the leaves they track |
| EightLeafBlock.LoseTracked | bump/bump.go:651-654 | yet the compound built from them lacks a leaf the first one tracks, whatever the hashes, as long as leaf 2 repeats neither leaf 0 nor leaf 1 |
| ThreeLeafBlock.ProveNothing | bump/bump.go:747-798 | a block of three leaves with both STUMPs delivered is built and proves no txid, whenever the header can tell the lift |
| FourLeafBlock.ProveTail | bump/bump.go:631-798 | a block of four leaves in two subtrees, built from subtree 1's STUMP alone, always builds and folds both its leaves to the block's root |
| FourLeafBlock.ProveHead | bump/bump.go:631-798 | the same from subtree 0's STUMP over a placeholder, with coinbase path and header, whatever root was delivered for subtree 0 |
| SingleProof.SingleBuildProvesLeaf | bump/bump.go:55-193 | the same for a block of one subtree, with a coinbase path, whose tree may be taller than the subtree, or without one, from variants of any heights |
| MinimalPath.ExtractMinimalPath | bump/bump.go:339-359 | the minimal path holds the stored leaf and stored siblings of its climb, level by level |
| MinimalPath.MinimalIsSmall | bump/bump.go:339-359 | at most two elements at level 0 and one above |
| MinimalPath.MinimalFolds | bump/bump.go:339-359 | the leaf folds in its minimal path to what it folds to in the full path, at every level |
| MinimalPath.MinimalIdempotent | bump/bump.go:339-359 | extracting again at the same offset changes nothing |
| MinimalPath.AssembleBump | bump/bump.go:28-38 | the result is the minimal path, at the first tracked transaction's offset, of the assembled full path |
| MinimalPath.AssemblyMatchesCompound | bump/bump.go:55-156 | AssembleBUMP's path for a transaction is the one extracted from the single-STUMP, unlifted compound over the same subtree roots |
| CompoundIndexing.ExtractMinimalPathForTx | bump/bump.go:365-394 | the minimal path of the first leaf that carries the txid, or nothing |
| CompoundIndexing.CompoundIndex.constructor | bump/bump.go:421-448 | every level is sorted by offset and each leaf hash maps to its last leaf's offset |
| CompoundIndexing.CompoundIndex.LeafAt | bump/bump.go:472-484 | binary search over a sorted level finds what a linear scan finds |
| CompoundIndexing.CompoundIndex.MinimalPathOf | bump/bump.go:490-516 | the indexed extraction is the minimal path over the sorted levels, or nothing for an absent txid |
| CompoundIndexing.IndexAgreesExactly | bump/bump.go:365-516 | index and scan return the same for a txid if and only if its first and last leaf are the same |
| CompoundIndexing.IndexMatchesScan | bump/bump.go:365-516 | with distinct leaf hashes and offsets they agree on every txid, present or absent |
| CompoundIndexing.RepeatedHashDiffers | bump/bump.go:365-516 | two leaves with one hash make them differ |
| UnionFind.Forest.constructor | services/api_server/partition_keys.go:47-52 | every position starts on its own, with size 1 |
| UnionFind.Forest.Find | services/api_server/partition_keys.go:53-59 | the root of the position's part, with every node visited pointed at its former grandparent, no part changed, in at most log2(n) steps, in every state unions and finds can reach |
| UnionFind.Forest.Union | services/api_server/partition_keys.go:60-70 | exactly the two parts are joined, and sizes keep counting the parts |
| UnionFind.HalvingHalves | services/api_server/partition_keys.go:53-59 | path halving leaves the node it started from at half its depth, rounded up |
| UnionFind.JoiningLeads | services/api_server/partition_keys.go:60-70 | putting the smaller root under the larger keeps parents leading, by increasing rank, to the representative |
| UnionFind.JoiningSized | services/api_server/partition_keys.go:60-70 | a root of rank k keeps standing for at least 2^k positions |
| Families.LessTotal | services/api_server/partition_keys.go:89-96 | the lexicographic order of txids is total and antisymmetric |
| Families.FamilyPartitionKeys | services/api_server/partition_keys.go:32-103 | each position's key is the smallest txid connected to it by in-batch spends |
| Families.SameKeyIffConnected | services/api_server/partition_keys.go:9-31 | two transactions share a key if and only if they are connected |
| Families.KeyUnchangedByOrder | services/api_server/partition_keys.go:17-21 | a family's key is unchanged by any reordering or repetition of the batch |
| Families.FamilyKeysBySubmittedTxid | services/api_server/partition_keys.go:135-154 | every submitted txid and no other is keyed by its family over the full batch, with the inputs of its first occurrence |
| FamilyDelivery.PropagationMessages | services/api_server/partition_keys.go:166-183 | one message per published transaction, in order, with its txid, wire bytes and inputs, keyed by family or, failing that, by its txid |
| Partitions.PartitionForKey | kafka/memory_broker.go:141-154 | the partition is below the count, for every hash value, in 32-bit truncating arithmetic |
| Broker.MemoryBroker.Subscribe | kafka/memory_broker.go:273-309 | fails exactly when closed, changing nothing; otherwise each topic has one mailbox per partition, shared within the group, new mailboxes are appended, and existing mailboxes and groups are untouched |
| Broker.MemoryBroker.Close | kafka/memory_broker.go:331-353 | every mailbox is marked done and keeps what it was sent |
| Broker.MemoryBroker.Snapshot | kafka/memory_broker.go:205-211 | the targets are mailboxes of the topic's partition, each once, and include every open one |
| Broker.MemoryBroker.Publish | kafka/memory_broker.go:177-268 | on success, under any interference, every mailbox of the partition that is still open has the message exactly once and no other has it; its offset is fresh |
| Broker.MemoryBroker.SendBatch | kafka/memory_broker.go:164-175 | on success each message is in its key's partition, offsets increase per partition, and every mailbox open throughout received exactly its partition's messages, in order |
| FamilyDelivery.DeliveredInOrder | kafka/memory_broker.go:164-268 | such a mailbox holds any two of the batch's messages in the order they were sent |
| FamilyDelivery.PublishSubmission | services/api_server/partition_keys.go:105-183 | every message is of the topic and carries its transaction; logs only grow; two published members of one submitted family land in one partition below the count, with increasing offsets, in listed order in each of its mailboxes still open, even when other members were deduplicated out |
| CatchupQueues.CatchupQueue.Add | merkleservice/pool.go:130-146 | the new entry replaces an older one for its txid, or is appended after the oldest entries are dropped to make room |
| CatchupQueues.AddedKeeps | merkleservice/pool.go:130-146 | order and map keep the same distinct txids within the bound; what leaves the queue leaves with the overflow flag set and is counted |
| CatchupQueues.CatchupQueue.Take | merkleservice/pool.go:150-164 | the front entries are returned in order, removed, and counted in flight |
| CatchupQueues.TakenKeeps | merkleservice/pool.go:150-164 | taking splits the queue without changing what is owed |
| CatchupQueues.CatchupQueue.DrainedAfterOverflow | merkleservice/pool.go:183-192 | the flag and count are reported and cleared exactly when the flag is set and nothing is queued or in flight |
| Verdicts.MergeErrors | merkleservice/pool.go:742-754 | nil exactly when some endpoint accepted (or none was asked); otherwise the earliest of the errors of lowest rank |
| Verdicts.RejectionIsUnanimous | merkleservice/pool.go:693-754 | the pool answers with a permanent rejection only if every endpoint's answer was a plain 4xx |
| Verdicts.EndpointBreaker.Record | merkleservice/pool.go:757-796 | cancellations count nothing, answers below 500 reset, failures count and trip at the threshold, a success while open closes |
| Verdicts.TripsAtThreshold | merkleservice/pool.go:757-796 | from a reset on, the breaker opens exactly at the threshold-th failure in a row |
| PoolProof.VerdictIsAcceptance | merkleservice/pool.go:496-513 | a batch's verdict for a transaction is nil exactly when some asked endpoint accepted it, skipped endpoints notwithstanding |
| PoolProof.CoveredStays | merkleservice/pool.go:482-530 | no step makes an accounted-for txid unaccounted for |
| PoolProof.QueueNextKeeps | merkleservice/pool.go:514-529 | queueing behind a pool-level success keeps the invariant and accounts for the transaction at the endpoint passed |
| PoolProof.ReportKeeps | merkleservice/pool.go:482-530 | a transaction is reported registered only once every endpoint accounts for it |
| PoolProof.TakeKeeps | merkleservice/pool.go:879-946 | entries taken by a drain or a trial watch pass from the queue to the worker |
| PoolProof.HandleNextKeeps | merkleservice/pool.go:1017-1035 | a handled entry was acknowledged, is rejected for good, or is queued again |
| PoolProof.StepKeepsInv | merkleservice/pool.go:482-1056 | every step of every worker keeps the invariant, in-flight counts included |
| PoolProof.NeverLostSilently | merkleservice/pool.go:102-192 | at every moment of every interleaving, each endpoint acknowledged, permanently rejected, owes, or dropped-and-flagged-or-resynced each txid the pool reported registered |
| PoolProof.FlagClearedByResync | merkleservice/pool.go:942-955 | the overflow flag is cleared only with nothing queued and nothing in flight, and the resync then covers everything dropped |
| Paging.ForEachBlockProcessing | store/paging.go:32-79 | terminates; on nil it handed over every row at or above minHeight with height at least 1 and none below, for any tie order changing between pages; a scan from height 0 is complete if and only if it is not cut |
| Paging.PageMeasures | store/store.go:594-597 | a page is full exactly when that many rows remain below the cursor, and ends at the height that splits the table there |
| Paging.CutByPage | store/paging.go:53-77 | whether a scan is cut is decided by the page in hand: growing, moving the cursor, or returning at height 0 |
| Paging.HeightZeroSkipped | store/paging.go:71-73 | a concrete table and page size for which a height-0 row is skipped |
| Statuses.FinalExactly | models/transaction.go:165-269 | for a "seen" target, a tracked status that stops the update settles it exactly when it is SEEN_ON_NETWORK, SEEN_MULTIPLE_NODES, MINED or IMMUTABLE, barring STUMP_PROCESSING and DOUBLE_SPEND_ATTEMPTED |
| Statuses.FinalUnconditionally | models/transaction.go:165-269 | over all lattice steps only MINED and IMMUTABLE settle it |
| Statuses.ConfirmedStays | models/transaction.go:165-269 | over any number of allowed steps, MINED reaches only MINED and IMMUTABLE, and IMMUTABLE only itself |
| Statuses.TerminalExactly | models/transaction.go:127-137 | of the terminal statuses exactly MINED and IMMUTABLE are never left, but for the promotion of MINED |
| SeenCallback.ApplySeenCallback | services/api_server/handlers.go:495-636 | the store moves as the unfiltered txids' updates say, exactly the applied moves that are not re-asserts are published, and the tracker follows those |
| SeenCallback.PrefilterExactly | services/api_server/handlers.go:511-540 | store and published txids are the same as without the prefilter if and only if every dropped update would have done nothing |
| SeenCallback.PrefilterRefines | services/api_server/handlers.go:511-602 | the prefilter refines the callback when its tracked statuses are the four settled ones and the store moved on by the allowed steps |
| SeenCallback.PendingRetryLost | services/api_server/handlers.go:511-540 | a tracked PENDING_RETRY whose row was accepted meanwhile loses its update |
| Tracker.TxTracker.LoadFromStore | store/tracker.go:80-143 | for every batch size the tracker holds exactly the emitted rows the scan keeps whose txid parses, and the counts are exact |
| Tracker.TxTracker.PruneConfirmed | store/tracker.go:215-229 | exactly the confirmed mined transactions are removed and returned, each once |
| Tracker.CutoffAgrees | store/trackerscan.go:93-126 | on a row that does not wrap, the scan's cutoff and the tracker's confirmation test agree |
| Tracker.HydrationIsPruning | store/trackerscan.go:93-126 | hydrating with the pruning scan equals hydrating without it and pruning, under any over-emission and order, if and only if no mined row wraps |
| Fees.CeilFeeExact | services/api_server/policy_refresher.go:267-284 | no operation wraps: the result is the rounded-up rate, saturated, if the remainder can be scaled, and the largest value otherwise |
| Fees.CeilFeeNeverBelow | services/api_server/policy_refresher.go:261-284 | the result is never below the saturated rate and equals it for byte bases up to MaxUint64/1000 + 1 |
| Fees.LowestObservedFeePerKB | services/api_server/policy_refresher.go:205-227 | the minimum over fresh usable peers, with the earliest peer that advertises it, or not found |
| Fees.DiscoveredFeePerKB | services/api_server/policy_refresher.go:184-193 | at least 1, the larger of 1 and that minimum when a usable peer exists, else the default of 100 |

## Left out

- BuildCompound.BuildCompoundBump: promises nothing of what is built when a delivered path has two elements at one offset of a level; the source does not check this.
- Merging.MergeStumpVariants: the same condition on the delivered paths.
- Variants.UnionMerklePath: the same condition on the two paths.
- Variants.MergeLevel: the same condition on the two levels; with a repeated offset the source's position map keeps the last.
- CompoundIndexing.CompoundIndex.constructor: sorting is by insertion and so stable; the source's sort is not, which shows only where two elements of a level share an offset.
- Families.FamilyPartitionKeys: asks that input lists beyond the txids hold only empty strings; with any other the source indexes out of range.
- FamilyDelivery.PublishSubmission: covers the synchronous batch path; the asynchronous send, which may drop, is left out.
- PoolProof.NeverLostSilently: is about txids, not registrations, since a re-added catch-up entry can overwrite a newer registration; it says nothing about backoff, which reaches 16 ticks.
- SeenCallback.ApplySeenCallback: the store's batch update is modelled as row after row in order, with the failing rows given by an oracle; timestamps, metrics and the bulk publish itself are left out.
- Statuses.FinalExactly: ranges over the defined statuses; unrecognised status strings, which nothing disallows, are left out.
- Tracker.TxTracker.LoadFromStore: a scan that fails midway is a shorter list of emitted rows; the error itself is passed through.
- Paging.ForEachBlockProcessing: the table does not change during the scan; the listing, cancellation and handler failures are oracles.
- Negative subtree indices, which validateSubtreeIndex rejects on the single-STUMP path, are excluded by type.
- Offsets and shifts are unbounded; the 64-bit wrap of an offset in a path is not modelled.
- Path elements are values: that the source's compound shares elements with the parsed STUMPs and shifts them in place is not visible.
- The block height carried by a path, parsing and serialising of BRC-74 data, and SHA-256.
- HTTP, timers and the straggler grace: a batch's per-endpoint answers arrive in any order with any content.
- The pool's Reprocess: one call per closed endpoint, whose answers go through the same error merge as `Verdicts.MergeErrors`.
- ValidateCompoundRoot: it compares the fold of whichever leaf comes first with the header, while the theorems here speak of each leaf.
- Consumption from a mailbox: a mailbox is the log of everything enqueued on it, which consumers read in order.
- bump/datahub.go, validator/, finality/, ssrfguard/, the remaining stores and routes: input and output, or small case analyses.
