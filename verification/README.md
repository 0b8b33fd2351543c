# Verified models of AutoIndex and of PostgreSQL index support code

This project models, in Dafny, the parts of the repository whose correctness is a statement about all inputs or all
runs, and proves those statements. `dafny verify dfyconfig.toml` checks everything.

## What is modelled

* **The AutoIndex advisor** (`postgres/src/backend/autoindex`). `Workload` and `WorkloadRing` are the lock-free ring
  between query execution and the background worker, as a machine with any number of producers and one atomic access a
  step. `AdvisorTable` is the open-addressing table of rents, `AdvisorRun` whole runs of it, and `AdvisorPipeline` ring
  and table together. `SkiRental` is the rent-or-buy rule for one column over whole runs against the offline optimum,
  `AdvisorColumn` its refinement by passes over the shared table, with a counterexample in `AdvisorNeighbour`, and
  `AdvisorPass` the sorting and creating half of a pass.
* **GiST keys for variable-length data** (`contrib/btree_gist`, the bytea instance). `ByteOrder` and `VarKeys`: lossy
  bounds cut to a common prefix plus two bytes, united and cut again at every level.
* **The bloom index** (`contrib/bloom`). `BloomRandom` and `BloomSignature` are the generator and the signatures,
  `BloomPage` the page code, and `BloomIndex` the whole index as a machine in which any number of inserters, vacuums
  and scans interleave, one locked page a step. `BloomVacuum` is about its vacuums.
* **Boxes** (`contrib/cube`). `CubeBox`, `CubeSearch`, `CubeDistance` and `CubeSplit`, with missing dimensions read as
  zero.
* **The amcheck verifiers** (`contrib/amcheck`). `XidHorizon`, `HotChain`, `HotRoots`, `ToastCheck`, `PostingTree` and
  `UniqueCheck`: each stateful checker is proved to report nothing exactly when a declarative condition holds.
  `UniqueLevel` takes the last one to whole levels.
* **hstore values** (`contrib/hstore`). `HstoreFormat`, `HstoreUpgrade` and `HstoreBuild`.
* **btree_gin scans** (`contrib/btree_gin`). `GinScan`.

Code that updates things step by step is modelled by methods, arrays and classes and proved against functions on
sequences; the lemmas are about those functions. Protocols are labelled state machines: a label names a step, `IsRun`
says that a schedule can run and `After` where it leads. The fields `inserted`, `removed`, `claims` and `drained` of
the machine states are history and are not part of the modelled memory.

## Where the code does not do what is promised

Each of these has a lemma with a concrete instance and a lemma that says exactly when the promise is kept.

* A split of a page of inner btree_gist keys cuts both halves to one shared length and can lose values below a bound
  that was cut before (`VarKeys.SplitLosesValue`; exact by `VarKeys.SplitCoverage`).
* The ring delivers an entry only if its producer has finished copying before the drain reaches the slot
  (`WorkloadRing.ClaimedEntryLost`; `DeliveryExact`), and can drop an entry while empty (`DropOnEmptyRing`;
  `DropExact`).
* The advisor's table clears slots without leaving a mark, so removing or evicting one column can make it forget
  another's rent (`AdvisorTable.RemovalForgetsRent`, `NeighboursCollide`; `ClearExact` for one clearing and
  `AdvisorRun.RunExact` for whole runs). The entry no lookup reaches any more is still evaluated, and its own removal
  leaves it there to trigger again (`AdvisorTable.RemovalLeavesEntry`; `RemovesAllExact` and
  `AdvisorColumn.RetriggersExact`).
* The repository's README promises a competitive ratio of two. For a column alone a condition on the workload's sums is
  exact (`SkiRental.RatioTwoExact`); no factor bounds it in general (`NoFactor`), and the bound there is has one pass
  added (`CompetitiveUpToOneRound`). Predicate and join uses pay rent separately for one index, so even exact rents can
  come to almost three times the optimum (`TwoRentsOneIndex`). In the shared table all this holds while no slot on the
  column's probe paths is cleared (`AdvisorColumn.TableRatioExact`), and can fail otherwise
  (`AdvisorNeighbour.NeighbourSpoilsRatio`).
* A column is removed from the rent table when its index is created, but an error later in the pass rolls the index back
  (`AdvisorPass.SettledNotIndexed`; `SettledIndexedExact`).
* The cap on indexes per table is tested against the state before the pass, because the counting query runs read-only
  within one snapshot (`AdvisorPass.CapExceeded`; `CapExact`). For the same reason the sort by rent has no effect
  (`OrderDoesNotMatter`), although its comment says it decides who is created under a tight cap.
* Contained-by searches on boxes can miss entries of fewer dimensions than the query
  (`CubeSearch.ContainedByHidden`; `ContainedByExact`), although the code declares its tests exact.
* A heap check whose cached horizon were more than 2^31 ids old could report a valid id (`XidHorizon.FalseAlarm`;
  `FalseAlarmExact`). The code relies on this not happening; it cannot while the oldest id is held back by the check's
  own snapshot (`NoFalseAlarmHeld`, and `CheckHasNoFalseAlarm` for a whole check).
* The uniqueness check looks no further than the first entry of the right sibling and can miss a duplicate
  (`UniqueLevel.DuplicateMissed`; `LevelExact`).
* The heap check's third pass does not see heap-only tuples that form a ring, or aborted ones that nothing leads to
  (`HotRoots.RingPasses`, `OrphanPasses`; `ChainsStartAtRoots`).
* The size shortcut of the hstore upgrade takes some old values for new ones and reads a null as a string
  (`HstoreUpgrade.NullBecomesEmpty`; `MeaningKeptExact`). The comment on ambiguous values says that with one entry they
  need some 32 kB of padding; that is so exactly when the first value is not null (`AmbiguousFirst`, `AmbiguousExact`).
* The bloom generator has two bad seeds, for which the chosen bit number is -1. The C code then shifts by a negative
  amount; the model leaves the signature alone (`BloomSignature.SignBitsInRange`, `TwoBadHashes`).

## Conventions

* Integers are unbounded. Widths are written out where they decide something: the generator's int32, 32-bit
  transaction ids, the uint32 chunk arithmetic, thirty-bit positions, the 32-bit hash.
* Coordinates, distances, rents and costs are reals; rounding, NaN and infinity are not modelled.
* A locked page access is one atomic step. The free-space map is any set of blocks: an insert may recycle whichever
  block is new or deleted when it locks it.
* Visibility of heap tuples, commit statuses, hash values, clocks, the outcome of `check_tuple` and the build cost of an
  index are parameters.
* The old hstore entry is read with the bit-field layout of a little-endian machine.

## Model

| member | source | states |
|---|---|---|
| `VarKeys.NodeCommonPrefix` | postgres/contrib/btree_gist/btree_utils_var.c:123-172 | the counting loop returns the length of the longest common prefix of a key's two bounds |
| `VarKeys.ComputeUnion` | postgres/contrib/btree_gist/btree_utils_var.c:332-367 | the folding loop followed by the cut is the cut hull of all entries |
| `VarKeys.UnionCovers` | postgres/contrib/btree_gist/btree_utils_var.c:214-287 | the truncated union of any keys, themselves truncated or not, covers every value any of them covers |
| `VarKeys.CutCoverageExact` | postgres/contrib/btree_gist/btree_utils_var.c:214-232 | cutting a hull to m bytes loses no covered value if and only if no open entry bound is a prefix of the cut bound with a byte below 255 after it |
| `VarKeys.HistoryCovers` | postgres/contrib/btree_gist/btree_utils_var.c:243-367 | through any depth of union and truncation a key covers every leaf value it was made from |
| `VarKeys.ConsistentIfCovered` | postgres/contrib/btree_gist/btree_utils_var.c:564-622 | at an inner node no strategy rejects a key that covers a value satisfying the operator |
| `VarKeys.LeafConsistentExact` | postgres/contrib/btree_gist/btree_utils_var.c:564-622 | at a leaf each strategy is exactly its operator |
| `VarKeys.SearchIsFilter` | postgres/contrib/btree_gist/btree_utils_var.c:564-622 | for all six strategies an index search returns exactly the leaf values the operator accepts, in order |
| `VarKeys.PickSplit` | postgres/contrib/btree_gist/btree_utils_var.c:468-557 | the offsets, lower half left and upper half right, list every entry once in the order of lower and then upper bounds, and both data are hulls cut at the longer of the two required lengths |
| `VarKeys.SortOffsets` | postgres/contrib/btree_gist/btree_utils_var.c:511-519 | whatever the order, the sort leaves every offset once and the entries rising |
| `VarKeys.KeysOrder` | postgres/contrib/btree_gist/btree_utils_var.c:452-465 | the comparison of two keys is total and transitive |
| `VarKeys.LeafHalvesApart` | postgres/contrib/btree_gist/btree_utils_var.c:521-554 | the keys a split of leaf entries leaves have ranges that meet in at most one value; what the right key covers the left one covers too exactly if it is that value, or the left upper bound was cut and it goes on from there |
| `VarKeys.UnionAt` | postgres/contrib/btree_gist/btree_utils_var.c:522-536 | folding binary unions over the entries dealt to one side gives their hull |
| `VarKeys.SplitCoverage` | postgres/contrib/btree_gist/btree_utils_var.c:538-554 | each half of a split covers what its entries covered if and only if the shared cut is safe for that half |
| `VarKeys.LeavesCutSafe` | postgres/contrib/btree_gist/btree_utils_var.c:538-554 | the shared cut is always safe for a page of leaf entries |
| `VarKeys.SplitLosesValue` | postgres/contrib/btree_gist/btree_utils_var.c:538-554 | a sorted page of four unions exists whose left half, after the split, rejects an equality search for a value stored below it |
| `BloomRandom.AdvanceIs` | postgres/contrib/bloom/blutils.c:228-251 | no intermediate leaves int32, the new state is congruent to 16807 times the old modulo 2^31-1, and only zero leads to zero |
| `BloomRandom.SeededIs` | postgres/contrib/bloom/blutils.c:255-260 | every 32-bit seed gives a state in range, and exactly 0xFFFFFFFF and 0x80000001 give zero |
| `BloomRandom.IterateIs` | postgres/contrib/bloom/blutils.c:225-260 | after the first call the state stays in [1, 2^31-2] for ever, or at zero from a bad seed |
| `BloomRandom.Generator.Rand` | postgres/contrib/bloom/blutils.c:228-251 | computed in int32 throughout, one call advances the state and returns it less one |
| `BloomRandom.Generator.Srand` | postgres/contrib/bloom/blutils.c:255-260 | the stored state is the truncated remainder of the seed taken as a signed number |
| `BloomSignature.SignBitsInRange` | postgres/contrib/bloom/blutils.c:266-293 | all bits chosen for a value lie within the signature if and only if its seed is not one of the two bad ones |
| `BloomSignature.TwoBadHashes` | postgres/contrib/bloom/blutils.c:266-285 | for every column there are two distinct 32-bit hash values that lead to a bad seed, and no others |
| `BloomSignature.SignValue` | postgres/contrib/bloom/blutils.c:266-293 | the array gains exactly the bits that depend on value and column, whatever the generator held before |
| `BloomSignature.BlendIs` | postgres/contrib/bloom/blutils.c:299-317 | a bit of a signature is set if and only if some non-null column asks for it |
| `BloomSignature.FormTuple` | postgres/contrib/bloom/blutils.c:299-317 | the array built is the signature of the row |
| `BloomSignature.FormScan` | postgres/contrib/bloom/blscan.c:88-118 | the array built is the signature of the scan keys |
| `BloomSignature.SignatureMatches` | postgres/contrib/bloom/blscan.c:159-168 | the word loop answers whether the tuple's signature is a superset of the query's |
| `BloomSignature.MatchingRowPasses` | postgres/contrib/bloom/blscan.c:88-179 | a row whose columns equal the scan keys always passes the signature test |
| `BloomPage.SpaceIsCapacity` | postgres/contrib/bloom/bloom.h:149-152 | the free-space test passes if and only if the page holds fewer tuples than its capacity |
| `BloomPage.EmptyPageFits` | postgres/contrib/bloom/blutils.c:324-351 | for every allowed signature length a tuple fits on an empty page, so adding to one cannot fail |
| `BloomPage.KeepIs` | postgres/contrib/bloom/blvacuum.c:98-123 | a tuple survives a vacuum with its multiplicity or, when condemned, not at all |
| `BloomPage.PageBuffer.Init` | postgres/contrib/bloom/blutils.c:405-415 | the page is empty, live and initialised |
| `BloomPage.PageBuffer.AddItem` | postgres/contrib/bloom/blutils.c:324-351 | appends exactly when the tuple fits, never past the page's space, and otherwise changes nothing |
| `BloomPage.PageBuffer.Compact` | postgres/contrib/bloom/blvacuum.c:98-150 | compaction in place leaves the ordered filter, counts removed plus remaining exactly, and marks the page deleted exactly when it emptied it |
| `BloomIndex.RunKeepsInv` | postgres/contrib/bloom/blinsert.c:207-336 | in every interleaving the metapage list stays within bounds and names only data blocks, only its lock holder works on it, and live pages hold between one and capacity tuples |
| `BloomIndex.NoDeadlock` | postgres/contrib/bloom/blinsert.c:207-336 | in every reachable state with unfinished work some unfinished process can take a step |
| `BloomIndex.HolderFinishes` | postgres/contrib/bloom/blinsert.c:254-336 | an inserter holding the metapage places its tuple exactly once and lets go, after at most one try per listed page and one fresh page |
| `BloomIndex.HolderAlwaysFinishes` | postgres/contrib/bloom/blinsert.c:254-336 | in every interleaving, by the time the holder has had one step more than there are pages still listed one of its own steps has placed its tuple, once, and let the metapage go |
| `BloomIndex.RunConserves` | postgres/contrib/bloom/blinsert.c:207-336 | in every interleaving each tuple is on the pages exactly as often as it was inserted and not vacuumed |
| `BloomIndex.StaysInBlock` | postgres/contrib/bloom/blvacuum.c:76-150 | no step moves or loses a tuple except a vacuum of its own block that condemns it |
| `BloomIndex.ScanFinds` | postgres/contrib/bloom/blscan.c:143-183 | a scan under way has found every matching tuple of each block it has passed that was there and not vacuumed meanwhile |
| `BloomIndex.RunKeepsFoundSound` | postgres/contrib/bloom/blscan.c:143-183 | whatever a scan returns was inserted and passes its signature test |
| `BloomIndex.NoRowMissed` | postgres/contrib/bloom/blscan.c:143-183 | a completed scan returns every row on the index when it began that equals its keys, unless vacuumed first |
| `BloomIndex.LiveOnSomePage` | postgres/contrib/bloom/blinsert.c:207-336 | after any run a tuple is on some page if and only if it was inserted more often than vacuumed |
| `BloomIndex.LiveRowFound` | postgres/contrib/bloom/blscan.c:77-190 | over whole runs of inserts, vacuums and scans there is no false negative |
| `BloomVacuum.VacuumIsComplete` | postgres/contrib/bloom/blvacuum.c:52-150 | in every interleaving, when a vacuum is about to end no page, old or added meanwhile, holds a tuple it was to remove, if none was inserted since it began |
| `BloomVacuum.StepKeepsSweeping` | postgres/contrib/bloom/blvacuum.c:76-150 | every step of any process keeps the blocks a vacuum has passed, and those added since it began, clean |
| `BloomIndex.AddToPage` | postgres/contrib/bloom/blinsert.c:223-247 | the page code used by an insert refines the machine's step: reinitialise if new or deleted, then append if it fits |
| `BloomIndex.VacuumBuffer` | postgres/contrib/bloom/blvacuum.c:83-150 | the page code used by a vacuum refines the machine's step and counts what it removes |
| `BloomIndex.Builder.Flush` | postgres/contrib/bloom/blinsert.c:48-59 | the cached page becomes the next page of the file |
| `BloomIndex.Builder.AddTuple` | postgres/contrib/bloom/blinsert.c:75-116 | one of the two attempts to add always succeeds and the tuples given stay in order |
| `BloomIndex.Builder.Finish` | postgres/contrib/bloom/blinsert.c:122-159 | the file holds exactly the tuples given, in order, no page empty or overfull |
| `BloomIndex.Build` | postgres/contrib/bloom/blinsert.c:122-159 | a build over any rows stores their tuples in order on well-formed pages |
| `BloomIndex.BuiltIsInitial` | postgres/contrib/bloom/blinsert.c:122-159 | every built index satisfies the machine's invariant with all its tuples accounted for |
| `BloomIndex.ScanPage` | postgres/contrib/bloom/blscan.c:152-178 | the tuple loop collects exactly the tids whose signature is a superset of the query's |
| `CubeBox.Union` | postgres/contrib/cube/cube.c:753-810 | the loops compute the per-dimension hull of two boxes, or hand back a datum united with itself |
| `CubeBox.UnionIsHull` | postgres/contrib/cube/cube.c:753-810 | with missing dimensions read as zero the union's bounds are the least and greatest of the two boxes' |
| `CubeBox.InterExact` | postgres/contrib/cube/cube.c:828-900 | two boxes overlap if and only if the corners of their intersection are in order in every dimension |
| `CubeBox.ContainsV0` | postgres/contrib/cube/cube.c:1129-1164 | true if and only if the second box lies within the first in all its own dimensions, zero-padded |
| `CubeBox.OverlapV0` | postgres/contrib/cube/cube.c:1199-1234 | true if and only if the boxes meet in every dimension, zero-padded |
| `CubeBox.Compare` | postgres/contrib/cube/cube.c:942-1019 | the result is the lexicographic comparison of lower then upper bounds of shared, then of further dimensions |
| `CubeBox.OrderFlips` | postgres/contrib/cube/cube.c:942-1019 | swapping the arguments negates the result |
| `CubeBox.OrderZero` | postgres/contrib/cube/cube.c:942-1019 | the result is zero if and only if dimensions and bounds agree |
| `CubeSearch.GistUnion` | postgres/contrib/cube/cube.c:430-454 | the key is the least box around all entries; for a lone entry there is none |
| `CubeSearch.HullExtends` | postgres/contrib/cube/cube.c:740-810 | uniting one more box with a hull gives the hull of them all |
| `CubeSearch.HullCoversEach` | postgres/contrib/cube/cube.c:430-454 | a union covers every box it is made of |
| `CubeSearch.CoversTransitive` | postgres/contrib/cube/cube.c:684-737 | covering passes from level to level |
| `CubeSearch.LayeredIsSound` | postgres/contrib/cube/cube.c:430-454 | if every key covers the boxes of the page it leads to, as a union does, every key covers every entry below it, to any depth |
| `CubeSearch.ConsistentBelow` | postgres/contrib/cube/cube.c:684-737 | an entry accepted at the leaf is never hidden by a covering key, for contained-by when the query's excess dimensions reach zero |
| `CubeSearch.ContainedByExact` | postgres/contrib/cube/cube.c:713-737 | for contained-by that condition is exact: without it some covering key hides the entry |
| `CubeSearch.ContainedByHidden` | postgres/contrib/cube/cube.c:713-737 | a concrete entry inside a concrete query that the inner test rejects |
| `CubeSearch.SearchIsFilter` | postgres/contrib/cube/cube.c:684-737 | a search of any tree of covering keys returns exactly the entries the operator accepts, in order |
| `CubeDistance.Taxicab` | postgres/contrib/cube/cube.c:1307-1345 | the loops sum the gaps along all axes of either box |
| `CubeDistance.Euclid` | postgres/contrib/cube/cube.c:1258-1300 | the loops sum the squared gaps along all axes of either box |
| `CubeDistance.Chebyshev` | postgres/contrib/cube/cube.c:1351-1400 | the loops find the widest gap along any axis |
| `CubeDistance.Distance1DIsGap` | postgres/contrib/cube/cube.c:1508-1520 | the one-dimensional distance is the gap between two intervals whichever way their ends are stored |
| `CubeDistance.DistanceBound` | postgres/contrib/cube/cube.c:1403-1505 | in all three metrics a key is no further from the query than any entry below it, across dimension counts |
| `CubeDistance.CoordIsBound` | postgres/contrib/cube/cube.c:1649-1697 | the coordinate of a leaf entry is the named bound of the named dimension, negated for a negative number |
| `CubeDistance.CoordBound` | postgres/contrib/cube/cube.c:1403-1470 | ordering by a coordinate, ascending or inverted, never puts a key after an entry below it |
| `CubeSplit.BoxSize` | postgres/contrib/cube/cube.c:915-937 | the loop computes the product of the side lengths, and zero for a point |
| `CubeSplit.Inter` | postgres/contrib/cube/cube.c:828-900 | the loops compute the per-dimension intersection, its corners possibly crossed |
| `CubeSplit.PickSeeds` | postgres/contrib/cube/cube.c:554-583 | the seeds are the first pair of existing entries that wastes most |
| `CubeSplit.PlacingIs` | postgres/contrib/cube/cube.c:609-652 | at every point of the distribution both lists are increasing, part the entries placed, and have their exact hulls |
| `CubeSplit.SplitIs` | postgres/contrib/cube/cube.c:516-660 | a finished split is two nonempty increasing lists parting the page, each with the least box around it |
| `CubeSplit.PickSplit` | postgres/contrib/cube/cube.c:516-660 | the arrays hold such a split, with seeds of most waste, least enlargement for the rest, and the sentinel in bounds |
| `XidHorizon.WidenIs` | postgres/contrib/amcheck/verify_heapam.c:1979-2015 | a normal xid becomes the one id in (next-2^31, next+2^31] with its low bits, or the first normal id exactly when that is negative |
| `XidHorizon.WidenRecovers` | postgres/contrib/amcheck/verify_heapam.c:1979-2015 | an id within 2^31 of the horizon is recovered from its low 32 bits |
| `XidHorizon.HeapCheck.Refresh` | postgres/contrib/amcheck/verify_heapam.c:2021-2032 | the cached range becomes the current one, both ends exact |
| `XidHorizon.HeapCheck.GetXidBounds` | postgres/contrib/amcheck/verify_heapam.c:2113-2149 | the verdict and the cache left behind are those of a check that refreshes at most once |
| `XidHorizon.FalseAlarmExact` | postgres/contrib/amcheck/verify_heapam.c:2113-2149 | a valid id is reported if and only if the stale range takes its low bits for an older id before the relation's horizon |
| `XidHorizon.NoFalseAlarm` | postgres/contrib/amcheck/verify_heapam.c:2113-2149 | with a horizon moved by at most 2^31 since it was cached a valid id is never reported |
| `XidHorizon.NoFalseAlarmHeld` | postgres/contrib/amcheck/verify_heapam.c:2113-2149 | nor while the oldest id has not passed the cached next id, which the snapshot of a running check sees to |
| `XidHorizon.CheckHasNoFalseAlarm` | postgres/contrib/amcheck/verify_heapam.c:2113-2149 | over a whole check, whatever ids it looked at before and however its cache moved, no valid id is reported while the oldest id has not passed the next id the check started with |
| `XidHorizon.FalseAlarm` | postgres/contrib/amcheck/verify_heapam.c:2113-2149 | a concrete horizon moved further would make the check report a valid id |
| `XidHorizon.PassIsInRange` | postgres/contrib/amcheck/verify_heapam.c:2113-2149 | an id that passes stands for a full id within both horizons, unless it precedes the first epoch while the oldest id is the very first |
| `HotChain.Chains.FirstPass` | postgres/contrib/amcheck/verify_heapam.c:505-633 | the arrays record which line pointers are usable and where they point; it is silent if and only if every one is sound |
| `HotChain.Chains.SecondPass` | postgres/contrib/amcheck/verify_heapam.c:640-804 | the predecessors recorded are those of all links; it stays silent if and only if no chains meet and every link's flags and statuses agree |
| `HotChain.Chains.ThirdPass` | postgres/contrib/amcheck/verify_heapam.c:806-836 | it stays silent if and only if no live heap-only tuple lacks a predecessor |
| `HotChain.CheckPage` | postgres/contrib/amcheck/verify_heapam.c:503-836 | the three passes together report nothing if and only if the page is sound |
| `HotRoots.ChainsStartAtRoots` | postgres/contrib/amcheck/verify_heapam.c:806-836 | on a page that passes, any heap-only tuple belongs to a chain with a root if and only if it is not on a ring of heap-only tuples and the way back from it does not end at one without predecessor |
| `HotRoots.NoOrphans` | postgres/contrib/amcheck/verify_heapam.c:806-836 | a way back ends so only at a tuple that is aborted, current or of unknown status: with all heap-only tuples live a passing page has none |
| `HotRoots.OrphanPasses` | postgres/contrib/amcheck/verify_heapam.c:806-836 | a concrete aborted heap-only tuple without predecessor passes all three passes |
| `HotRoots.RingPasses` | postgres/contrib/amcheck/verify_heapam.c:806-836 | a concrete ring of two tuples passes all three passes |
| `ToastCheck.CheckChunk` | postgres/contrib/amcheck/verify_heapam.c:1556-1639 | a chunk is accepted if and only if its number is the expected one and its size what that number demands |
| `ToastCheck.CheckValue` | postgres/contrib/amcheck/verify_heapam.c:1862-1910 | nothing is reported if and only if the chunks are numbered 0 to the last in order and each has its due size |
| `ToastCheck.IntactAddsUp` | postgres/contrib/amcheck/verify_heapam.c:1862-1910 | then the sizes add up to the external size, unless that is zero, when they add up to 2^32 |
| `PostingTree.CheckPostingTree` | postgres/contrib/amcheck/verify_gin.c:134-381 | the stack traversal ends, and raises nothing if and only if every page passes its tests and all leaves are at one depth |
| `PostingTree.VisitInner` | postgres/contrib/amcheck/verify_gin.c:232-370 | an inner page passes if and only if its header, right bound and every item do, and then all its children are pushed |
| `PostingTree.PassIsBounded` | postgres/contrib/amcheck/verify_gin.c:134-381 | on a well-shaped tree that passes, every tid is at most every finite downlink key on its path |
| `UniqueCheck.CheckEntry` | postgres/contrib/amcheck/verify_nbtree.c:911-1001 | it reports if and only if the entry's visible tids and the one carried make two |
| `UniqueCheck.CheckPage` | postgres/contrib/amcheck/verify_nbtree.c:1642-1816 | the loop with its postponed checks raises if and only if some non-null key, with the right sibling's first entry where it goes on, has two visible tids |
| `UniqueLevel.CheckLevel` | postgres/contrib/amcheck/verify_nbtree.c:624-800 | the check of all pages of a level raises if and only if the check of some page does |
| `UniqueLevel.LevelExact` | postgres/contrib/amcheck/verify_nbtree.c:1642-1816 | it raises, whichever rows are visible, if and only if some key has two visible tids on the level, exactly for levels in which no run of equal keys goes beyond the first entry of a right sibling |
| `UniqueLevel.RaisedIsDuplicate` | postgres/contrib/amcheck/verify_nbtree.c:1642-1816 | on any level, what is raised is a duplicate |
| `UniqueLevel.DuplicateMissed` | postgres/contrib/amcheck/verify_nbtree.c:1755-1816 | a concrete duplicate on two pages is missed because the entry between is not visible |
| `HstoreFormat.EncodedDecodes` | postgres/contrib/hstore/hstore.h:28-83 | a value that stands for a list of pairs is read by the accessors as exactly that list |
| `HstoreFormat.EncodingInjective` | postgres/contrib/hstore/hstore.h:28-83 | a value stands for at most one list of pairs |
| `HstoreFormat.EncodedRises` | postgres/contrib/hstore/hstore.h:14-19 | end positions never decrease from word to word |
| `HstoreUpgrade.ConversionEncodes` | postgres/contrib/hstore/hstore_compat.c:316-341 | the rewritten words stand for the pairs the old accessors read |
| `HstoreUpgrade.NewOkReadable` | postgres/contrib/hstore/hstore_compat.c:122-165 | a value accepted as new-format can be read without leaving it |
| `HstoreUpgrade.ShortcutExact` | postgres/contrib/hstore/hstore_compat.c:249-255 | below 32 kB an old value is taken for a new one if and only if its first value is null and yet has a stored length of 32768 or more, and that null is then read as a string |
| `HstoreUpgrade.MeaningKeptExact` | postgres/contrib/hstore/hstore_compat.c:235-346 | an old value is read after the upgrade as before it if and only if it has 32 kB or is not of that kind |
| `HstoreUpgrade.AmbiguousFirst` | postgres/contrib/hstore/hstore_compat.c:60-82 | a value valid in both formats starts with an entry whose value word is 0 or 1, whose key is no longer than that and whose value length is 32768 or 49152, and unless that value is null it has 32768 bytes to spare |
| `HstoreUpgrade.AmbiguousExact` | postgres/contrib/hstore/hstore_compat.c:60-72 | for a value of one entry that is exact: it is valid in both formats if and only if its entry is of that kind and either reading fits |
| `HstoreUpgrade.NullBecomesEmpty` | postgres/contrib/hstore/hstore_compat.c:249-255 | a concrete such value, without padding in either reading, has its null read as an empty string |
| `HstoreUpgrade.Value.ValidNew` | postgres/contrib/hstore/hstore_compat.c:122-165 | it rejects if and only if the new-format conditions fail, whatever the count and wherever its entries end, and is exact only for an exact size |
| `HstoreUpgrade.Value.ValidOld` | postgres/contrib/hstore/hstore_compat.c:174-228 | it rejects if and only if the count has other bits set or the pairs are not contiguous, ordered by key length and within the value |
| `HstoreUpgrade.Value.Convert` | postgres/contrib/hstore/hstore_compat.c:316-341 | every entry is read before its two words are overwritten |
| `HstoreUpgrade.Value.Upgrade` | postgres/contrib/hstore/hstore_compat.c:235-346 | every value, whatever its count, is flagged and sized or rejected unchanged; one that does not take the shortcut never grows, and a converted one keeps its meaning |
| `HstoreBuild.WrittenDecodes` | postgres/contrib/hstore/hstore.h:99-126 | the words and bytes written for any pairs within the position limit read back as those pairs |
| `HstoreBuild.Builder.AddItem` | postgres/contrib/hstore/hstore.h:112-126 | the next pair is added, null or not, and no byte of the entries is touched |
| `HstoreBuild.Builder.CopyItem` | postgres/contrib/hstore/hstore.h:99-106 | the next pair is added from contiguous bytes, and no byte of the entries is touched |
| `HstoreBuild.Builder.MoveDown` | postgres/contrib/hstore/hstore.h:129-140 | an overlapping move towards the start arrives unchanged and touches nothing before its destination |
| `HstoreBuild.Builder.Finalize` | postgres/contrib/hstore/hstore.h:129-140 | the finished value has its count, flags, size and bytes in place whatever room was set aside, and the memory of its entries is spared |
| `HstoreBuild.Build` | postgres/contrib/hstore/hstore.h:99-140 | building any list of pairs, any of them copied rather than added, and reading it gives the list back |
| `GinScan.FollowIsFilter` | postgres/contrib/btree_gin/btree_gin.c:150-232 | from a proper start the match, skip and stop verdicts pick out exactly the accepted keys |
| `GinScan.StartExact` | postgres/contrib/btree_gin/btree_gin.c:67-147 | a start point serves every index if and only if it is not after a value that can match and, for equality, not before the query at another value |
| `GinScan.ScanIsFilter` | postgres/contrib/btree_gin/btree_gin.c:67-232 | for all five operators the scan returns exactly the keys the operator accepts, with a good conversion or none |
| `GinScan.ClampIsGood` | postgres/contrib/btree_gin/btree_gin.c:280-313 | clamping converts any integer query well enough, and to the indexed type |
| `GinScan.IntegerScans` | postgres/contrib/btree_gin/btree_gin.c:273-399 | every scan of an integer index with a query of any integer type is its filter |
| `WorkloadRing.RunKeepsInv` | postgres/src/backend/autoindex/workload_capture.c:236-273 | in every interleaving of producers and the drain at most 4095 tickets are unread, the drain stays between head and tail, and no ticket has two claimants |
| `WorkloadRing.RunCounts` | postgres/src/backend/autoindex/workload_capture.c:236-273 | in every interleaving each push is written, dropped or under way, and the two counters say which, exactly |
| `WorkloadRing.TimelyRunDeliversExactly` | postgres/src/backend/autoindex/index_advisor.c:175-237 | if no slot is read before its claimant has filled it the drain receives exactly the claimed entries, once each and in order |
| `WorkloadRing.DeliveryExact` | postgres/src/backend/autoindex/index_advisor.c:175-237 | in every interleaving whose entries can be told from those a lap before, the drain receives exactly the claimed entries, in order, if and only if it reads no slot before its claimant has filled it |
| `WorkloadRing.EarlyTakeRepeats` | postgres/src/backend/autoindex/index_advisor.c:190-192 | a read that comes too early delivers a blank or what was delivered one lap before, which is the claimed entry only if the two are equal |
| `WorkloadRing.ClaimedEntryLost` | postgres/src/backend/autoindex/workload_capture.c:262-269 | a concrete schedule loses a claimed entry |
| `WorkloadRing.DropExact` | postgres/src/backend/autoindex/workload_capture.c:250-260 | whatever others do until it decides, a producer drops its entry if and only if the ring was full as it read head and tail had not moved, or head had passed the tail it read and stood one slot ahead of it round the ring |
| `WorkloadRing.DropOnEmptyRing` | postgres/src/backend/autoindex/workload_capture.c:250-260 | a concrete schedule drops an entry although the ring is empty |
| `AdvisorTable.LookupExact` | postgres/src/backend/autoindex/index_advisor.c:83-110 | while its probe path has no hole, a lookup ends at a used slot if and only if the column is stored there |
| `AdvisorTable.OneSlotPerColumn` | postgres/src/backend/autoindex/index_advisor.c:83-110 | no column whose probe path has no hole has two slots |
| `AdvisorTable.TurnedAway` | postgres/src/backend/autoindex/index_advisor.c:83-110 | a lookup is turned away if and only if every slot is used by another column |
| `AdvisorTable.DrainExact` | postgres/src/backend/autoindex/index_advisor.c:175-237 | draining any entries adds to a column exactly what they charge to it, in rent, count and time, if and only if none of its charges is turned away by a full table |
| `AdvisorTable.ClearExact` | postgres/src/backend/autoindex/index_advisor.c:116-141 | after any slots are cleared a lookup finds a surviving column where it was, with its rent, if and only if none of them is on its probe path; otherwise it finds nothing |
| `AdvisorTable.EvictExact` | postgres/src/backend/autoindex/index_advisor.c:116-141 | an eviction does to a column what its own age says if and only if no stale slot is on its probe path |
| `AdvisorTable.RemoveExact` | postgres/src/backend/autoindex/index_advisor.c:147-169 | to lookups, a removal forgets its own column and leaves another as it was if and only if the slot it clears is not on the other's probe path |
| `AdvisorTable.RemovesAllExact` | postgres/src/backend/autoindex/index_advisor.c:143-169 | on any table, a removal takes a column out altogether if and only if no slot but the one a lookup finds holds it |
| `AdvisorTable.RemovalForgetsRent` | postgres/src/backend/autoindex/index_advisor.c:147-169 | otherwise the next charge starts the column again from zero and gives it a second slot |
| `AdvisorTable.RemovalLeavesEntry` | postgres/src/backend/autoindex/index_advisor.c:143-169 | the entry behind the hole, with its rent, survives the removal of its own column |
| `AdvisorTable.NeighboursCollide` | postgres/src/backend/autoindex/index_advisor.c:73-81 | attribute 32 of one relation and 1 of the next share a home, so indexing the first forgets the second |
| `AdvisorTable.AdvisorHash.Find` | postgres/src/backend/autoindex/index_advisor.c:83-110 | the probing loop finds or creates the column's slot, or reports a full table |
| `AdvisorTable.AdvisorHash.Drain` | postgres/src/backend/autoindex/index_advisor.c:175-237 | the nested loops apply all charges of all entries in order |
| `AdvisorTable.AdvisorHash.Remove` | postgres/src/backend/autoindex/index_advisor.c:147-169 | the slot the probe finds is cleared and no other |
| `AdvisorTable.AdvisorHash.EvictStale` | postgres/src/backend/autoindex/index_advisor.c:116-141 | exactly the stale slots are cleared |
| `AdvisorPipeline.RentIsWorkload` | postgres/src/backend/autoindex/index_advisor.c:446-464 | in every timely interleaving, and every run of drains, evictions and removals over what it delivers, the rent and count of an undisturbed column are exactly the cost and number of its mentions in the entries claimed since its own last clearing |
| `AdvisorRun.StepExact` | postgres/src/backend/autoindex/index_advisor.c:83-237 | each operation does to a column what it means for that column alone if and only if no charge to it is turned away and no cleared slot is on its probe path |
| `AdvisorRun.RunExact` | postgres/src/backend/autoindex/index_advisor.c:83-237 | over every run of operations the table answers for a column as its own history does, at every point, if and only if every operation spares it |
| `AdvisorRun.RunIsKept` | postgres/src/backend/autoindex/index_advisor.c:446-464 | what it answers over a spared run is exactly what was drained since the column's own last removal or eviction |
| `AdvisorColumn.FateRefines` | postgres/src/backend/autoindex/index_advisor.c:446-622 | over any passes of eviction, drain, evaluation of all slots and removal an undisturbed column is bought, or not, at the same pass and after the same payments as if it were alone |
| `AdvisorColumn.FoundIsTracked` | postgres/src/backend/autoindex/index_advisor.c:511-561 | the evaluation loop over slots and a lookup agree on a column whose probe path has no hole |
| `AdvisorColumn.RetriggersExact` | postgres/src/backend/autoindex/index_advisor.c:143-169 | after its removal a column triggers again if and only if an entry no lookup reached did before |
| `AdvisorColumn.TableRatioExact` | README.md:17-30 | for an undisturbed, unhindered column of the shared table, with its predicate and its join rent, the promised ratio of two holds if and only if the sums of its workload keep within it |
| `AdvisorColumn.TableCompetitive` | postgres/src/backend/autoindex/index_advisor.c:446-622 | such a column costs at most the greater of three and one more than its mentions a query times the optimum, plus one pass |
| `AdvisorNeighbour.NeighbourSpoilsRatio` | postgres/src/backend/autoindex/index_advisor.c:147-169 | for every price, a column that alone would meet the ratio exactly pays any further amount because the index of a neighbour makes the table forget its rent |
| `SkiRental.RatioTwoExact` | README.md:17-30 | for a column used in predicates, joins or both, with any number of mentions a query and unhindered, the promised ratio of two holds if and only if neither rent is at the price at any pass, or what was paid when one first is is at most the price and with the price at most twice the whole workload |
| `SkiRental.CompetitiveUpToOneRound` | postgres/src/backend/autoindex/index_advisor.c:446-622 | with at most m mentions a query under one usage the cost is at most the greater of 3 and m + 1 times the optimum plus one pass; under one usage only, m + 1 times, and optimal when nothing is bought |
| `SkiRental.TwoRentsOneIndex` | postgres/src/backend/autoindex/index_advisor.c:511-561 | whatever the settings, each of a column's two rents can keep the ratio on its own account while the index they share costs as near to three times its optimum as one likes |
| `SkiRental.NoFactor` | README.md:17-30 | for every setting and every factor some unhindered workload with the price as its optimum exceeds it |
| `SkiRental.GuardNeverBuys` | postgres/src/backend/autoindex/index_advisor.c:530-539 | with the frequency guard some workload pays any multiple of the price without ever buying |
| `SkiRental.DoubleChargeBuysEarly` | postgres/src/backend/autoindex/index_advisor.c:194-218 | whatever the settings, a column mentioned twice in a query is bought at half the price and costs three times the optimum |
| `AdvisorPass.SortByRent` | postgres/src/backend/autoindex/index_advisor.c:563-579 | the in-place exchange sort computes the reference sort |
| `AdvisorPass.SortedIsDescending` | postgres/src/backend/autoindex/index_advisor.c:563-579 | which is a rearrangement in descending order of rent |
| `AdvisorPass.CreateIndexes` | postgres/src/backend/autoindex/index_advisor.c:582-619 | the loop calls for the removal of exactly the candidates under the cap up to the first error and leaves behind exactly the indexes made, or none after an error |
| `AdvisorPass.LeftBehindIs` | postgres/src/backend/autoindex/index_advisor.c:582-619 | a pass leaves no index the rules do not name, and all they name if no attempt goes wrong |
| `AdvisorPass.SettledIndexedExact` | postgres/src/backend/autoindex/index_advisor.c:582-619 | every column whose removal a pass calls for is indexed afterwards if and only if, where some attempt ends in an error, there is none before the first that does and, where none does, some attempt for each column attempted is made |
| `AdvisorPass.SettledNotIndexed` | postgres/src/backend/autoindex/autoindex.c:288-312 | a concrete pass rolls an index back with a later error and yet forgets its column's rent |
| `AdvisorPass.AllOrNothing` | postgres/src/backend/autoindex/index_advisor.c:582-619 | for each table a pass without failures creates everything its candidates ask for, or nothing |
| `AdvisorPass.CapExact` | postgres/src/backend/autoindex/index_advisor.c:582-602 | the cap on indexes per table survives a pass without failures if and only if the table was at it or the wishes fit under it |
| `AdvisorPass.CapExceeded` | postgres/src/backend/autoindex/index_advisor.c:582-602 | for every cap a pass can take a table beyond it |
| `AdvisorPass.OrderDoesNotMatter` | postgres/src/backend/autoindex/index_advisor.c:561-579 | without failures the ordering by rent never changes which indexes are created |

## Left out

- The penalty functions of btree_gist and cube: heuristics with nothing to prove but their formulas.
- btree_gist for numeric types, and text, bpchar, numeric and bit keys: the former would only add easy members, the latter depend on collations.
- Multibyte encodings in `gbt_var_node_cp_len`: bytea has one-byte characters.
- The algorithm of `qsort_arg`: `VarKeys.SortOffsets` stands for it, and says no more than that the result is sorted.
- The buffer manager, WAL, memory contexts, error texts and progress reporting.
- `blvacuumcleanup` and `bloptions`: the first only feeds the free-space map, which is arbitrary here; the second is parsing.
- Scans with a null key: they return nothing before reading a page.
- The square root in `cube_distance`: distances are compared squared.
- `cube_cmp_v0` as an order across dimension counts: it is not transitive there.
- Cube input, output, enlargement and subsets.
- The plan walk that fills a workload entry, the lifecycle manager and the SQL the advisor issues.
- The logarithm in the build cost, and its change as a table grows: the price of an index is a parameter of `SkiRental`, one for a run.
- Tearing inside one copied ring entry, and wrap-around of the ring's 64-bit counters.
- Commit status lookup and its one-entry cache in `get_xid_status`, and multixact ids.
- Tuple-level checks of the heap (`check_tuple`), and update chains across pages.
- Entry-tree checks of GIN, and everything in `verify_nbtree.c` but uniqueness.
- Parsing and pair sorting of hstore input.
- Nulls, and conversions other than between integer types, in btree_gin; `GinScan.StartExact` says what such a conversion must satisfy.
- PostingTree.PassIsBounded: assumes what GIN keeps and the check does not test, that leaf lists are sorted and open keys only lead to the right edge, because without it a passing tree need not be bounded.
- HotChain.CheckPage: does not say which of several reports is made, only whether there is one; the same holds for ToastCheck.CheckValue and PostingTree.CheckPostingTree.
- BloomIndex.HolderFinishes: is about an inserter that already holds the metapage; fairness among waiting processes is not modelled.
- BloomIndex.NoDeadlock: data pages are locked and unlocked within one step, because no holder of a data page waits for another page; so only the metapage, which its holder keeps while it locks data pages, can block.
