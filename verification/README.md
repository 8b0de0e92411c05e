# A model of the log-based storage layer

The repository stores datasets as an append-only log: a write call stages its data and an encoded selection, a collective flush lays the data of all processes behind one another in a log dataset, a metadata flush writes the encoded entries as sections of a metadata dataset, and a read rebuilds an N-dimensional array from the entries. This project models those parts and proves that together they behave like a plain array.

How the modules follow the program:

- `Grid`, `Rows`: coordinates, lexicographic order, blocks and their row-major traversal. `Radix`: dataset steps, mixed-radix encoding.
- `BlockSort`, `BlockMerge`, `MergeFull`, `SlotMerge`, `RowBreakDown`, `Selections`: the selection canonicaliser, in place on an array of rows and an array of pointers to them. `CanonicalForm`: the list it aims at. `SlotFill`, `SlotSafe`, `SlotWhole`, `SlotLoss`, `SlotLossFlat`: when it makes that list, what it joins, and inputs for which it does not.
- `Bytes`, `MetaCodec`, `EntryCodec`, `EntryLayout`, `RequestBuffer`: the entry format, its bytes field by field, its encoder and decoders.
- `Dedup`, `RecordFlag`, `Stream`, `DedupHits`, `WriteQueue`: back-references, the request queue, and what is read back of it. `DedupCases`: inputs on which it fails.
- `IndexList`, `IndexSearch`, `IndexCompact`, `StreamIndex`: the two indexes.
- `SortOffsets`, `Trim`, `ReadPlan`, `RunBreakDown`, `ReadGroups`, `ReadTypes`, `ReadLegal`, `ReadCuts`, `ReadGuard`: the read planner and the legality of its file type.
- `ReadWins`, `ReadPath`, `ReadOrder`, `ReadBatch`, `ReadRequest`, `InnerRead`, `CanonicalRead`: what the planned transfers and copies leave in the buffers.
- `Flush`, `Sections`, `WriteOrder`, `Protocol`: processes, prefix sums, section tables, the order of the writes, and the invariant of all runs.
- `PlainArray`, `OpenFile`: the array that a user sees, and the open file as an object whose reads answer like it.

The ranks of the communicator are a sequence of process states and every collective operation is one atomic step. The file is a byte sequence that grows at the end, the under-VOL allocator answers an address at or behind the end, and transfers apply in type-map order, whether or not the file type is one that MPI allows. MPI gives a view through an illegal type no meaning, so a clause about the bytes of a read says something of the program only where the clause about legality beside it holds. `std::sort` is a stand-in of which only the contract is used, and the hash table of the deduplication is a set of requests of which any that compares equal may be found.

The order of the writes: a write is behind those of earlier flushes, within a flush behind those of lower processes, and within a process behind those issued before it (`WriteOrder.Earlier`). The array holds, for each element, the bytes of the covering write that is behind all other covering ones.

## Findings

Where the code does not meet a property it evidently aims at, the model keeps the code as it is, names an input and proves the exact condition.

- Step-encoded counts (src/H5VL_logi_meta.hpp:49-63): encoding and decoding is exact if and only if every trailing component is below its extent (`Radix.RadixRoundTrip`). A block as wide as the dataset in a trailing dimension has a count that is not: `Radix.FullWidthCountIsNotExact` names one. A whole entry is read back if and only if it is not step-encoded or every start and count is in this range (`EntryCodec.EntryRoundTrip`).
- The comparison of last elements (src/H5VL_logi_idx.cpp:36-55): both branches of `operator>` test for greater, so any dimension decides. `ReadGuard.ThreeReadsIllegal` gives three requests without a common element on one 10 x 10 entry - columns 0-4 of all rows, columns 5-7 of rows 1-2, and the element (5, 5) - for which the file type is not legal. It is legal if and only if, wherever the grouping loop starts a new group, the block that starts it is behind every earlier block of the same entry block (`ReadGuard.LegalExactly`). Requests made of span-ordered selections meet this wherever the canonicaliser loses nothing (`CanonicalRead.SpanOrderReadsLegally`), as do all reads in one dimension.
- The copy source of a trimmed range (src/H5VL_log_dataseti.cpp:655): right if and only if, for every range, the first earlier range that reaches its end also ends there (`Trim.TrimServes`). A batch gets all its data, for all contents, if and only if this holds of the ranges of every group (`ReadBatch.BatchIsServed`). Two requests, one for elements 0-3 of an entry of bytes and one for elements 1-2, are planned as one group and are not served (`InnerRead.InnerRequestIsNotServed`).
- Equality of requests in the deduplication (src/H5VL_logi_nb.cpp:198-206): only the size of the whole entry and the bytes of the selection are compared. A hit is read back as the write it stands for if and only if both or neither are record writes and there is one block or the element sizes agree (`Stream.RefRoundTrip`), and exactly then are the bytes of the whole queue read back as its writes (`DedupHits.HitReads`). Two datasets with elements of four and of eight bytes and the same selection of two blocks confuse it (`DedupCases.ElementSizesConfuse`). Under step encoding so do a record write of a 5 x 3 x 16 dataset and a write of a fixed 2 x 4 x 4 one (`DedupCases.RecordFlagsConfuse`); in this second example the hash values differ, and whether the table gets to compare the two depends on its buckets, which are not modelled.
- Full references to record entries in the compact index (src/H5VL_logi_idx_compact.cpp:121-140 and 210-261): the shared blocks omit dimension 0 and the search reads past them (`IndexCompact.FullRefToRecordFaults`). The two indexes answer alike if and only if no record write of the dataset is stored as a reference without its record number (`StreamIndex.WrittenIndexesAgree`), which a call causes exactly if it is a hit on a write of the same record (`DedupCases.CallsTell`). Writing the same elements of one record twice is enough (`DedupCases.RecordTwice`).
- Loading with a limited metadata buffer (src/H5VL_logi_nb.cpp:340-350): a file without any metadata dataset makes the partial loader open one that does not exist. A read succeeds if and only if the buffer is not limited or there is a metadata dataset (`OpenFile.LogFile.Read`).
- Unsorted point selections (src/H5VL_logi_dataspace.cpp:369-398): points are sorted, so the traversal is the given list if and only if the list is increasing (`Selections.PointsKeepOrder`).
- Rows shared between slots (src/H5VL_logi_dataspace.cpp:90-135 and 315-363): merging moves pointers, so the slots behind the new length still point to rows in use, and the next group writes through these slots. The list of blocks is the canonical one if and only if every group finds, behind the blocks kept so far, slots that share no row with them or with each other (`SlotFill.ResultExactly`, whose condition `SlotFill.Clean` follows the pointers only); in every other case an element of the selection is lost. In three dimensions columns 0 and 2-3 of rows 0-1 and the element (3, 0) lose (1, 2) (`SlotLoss.LossyLosesElement`). Nothing is lost if no group that is broken down shrinks before the last group, which includes a single group and a break-down of the last group only (`SlotSafe.NoEarlierMergeIsClean`), nor in one dimension (`SlotSafe.RankOneIsClean`), nor in two dimensions if the blocks still form a span tree after the first merge (`SlotSafe.RankTwoIsClean`). Two dimensions alone are not safe: column 0 of row 0, columns 0 and 2 of rows 1-2 and column 0 of row 4 form a span tree in HDF5's order, and an element is lost (`SlotLossFlat.FlatLosesElement`).

The canonicaliser compares a block with its direct predecessor only (src/H5VL_logi_dataspace.cpp:259-272). The groups cut that way are right for every list in HDF5's span order (`CanonicalForm.CanonicalSpanOrder`); the list of `CanonicalForm.AdjacentComparisonIsNotEnough`, for which they are not, cannot come from HDF5. What then becomes of the groups is the last finding.

## Model

| member | source | states |
|---|---|---|
| Radix.ComputeDsteps | src/H5VL_log_dataset.cpp:161-167 | the backward product loop gives each dimension the number of elements below it |
| Radix.SelEncode | src/H5VL_logi_meta.hpp:57-63 | the accumulating loop computes the weighted sum of the components |
| Radix.SelDecode | src/H5VL_logi_meta.hpp:49-55 | the dividing loop computes the digits of the offset |
| Radix.RadixRoundTrip | src/H5VL_logi_meta.hpp:49-63 | decoding an encoded coordinate returns it exactly when every component after the first is below its extent |
| Radix.EncodeInjective | src/H5VL_logi_meta.hpp:57-63 | coordinates with trailing components in range and equal encodings are equal |
| Radix.FullWidthCountIsNotExact | src/H5VL_logi_meta.hpp:49-63 | a count as wide as its dimension is not read back |
| BlockSort.SortBlocks | src/H5VL_logi_dataspace.cpp:54-88 | following cycles in place permutes the pointers of the range by one permutation that puts the starts they point to in lexicographic order; no row and no pointer outside the range changes |
| SlotMerge.MergeBlocks | src/H5VL_logi_dataspace.cpp:90-135 | the in-place merge folds rows and moves pointers as the merge of slots does, shared rows included |
| SlotMerge.MergeValue | src/H5VL_logi_dataspace.cpp:90-135 | if the slots in use point to different rows, the kept slots show the merged blocks through different pointers of the range, the slots behind the new length point to where the passes left them, and no other row or pointer changes |
| BlockMerge.MergeCovers | src/H5VL_logi_dataspace.cpp:90-135 | merging changes no element of the selection |
| BlockMerge.MergeTrav | src/H5VL_logi_dataspace.cpp:90-135 | merging blocks that are one element wide below the merged dimensions keeps the traversal |
| MergeFull.PassApart | src/H5VL_logi_dataspace.cpp:95-132 | after the pass along d no block ends along d where its successor starts while they agree in all other dimensions |
| MergeFull.PassesApart | src/H5VL_logi_dataspace.cpp:95-132 | every dimension has such a pass, the last dimension first |
| MergeFull.SlicesMerge | src/H5VL_logi_dataspace.cpp:90-135 | the slices of a block along any leading dimensions, in row-major order, merge into the block |
| MergeFull.RowsMerge | src/H5VL_logi_dataspace.cpp:353-363 | a block broken down into its rows and merged is the block again |
| Rows.RowCount | src/H5VL_logi_dataspace.cpp:276-296 | a block has as many rows as the product that sizes the output |
| Rows.RowsTrav | src/H5VL_logi_dataspace.cpp:315-352 | the rows, traversed one after the other, are the traversal of the block |
| RowBreakDown.BreakDownSpan | src/H5VL_logi_dataspace.cpp:315-352 | the odometer writes every row of the block once, in order, through consecutive slots, each made from what the slot before shows |
| Selections.Canonicalise | src/H5VL_logi_dataspace.cpp:238-367 | merge, sort, merge, group, break down, sort and merge on rows and pointers end in the canonical block list, and cover exactly what lies between the first and last coordinates of the spans, exactly if no group is written through a shared row |
| SlotFill.ResultExactly | src/H5VL_logi_dataspace.cpp:315-363 | for disjoint blocks the program's list is the canonical one, and covers exactly the selection, exactly if every group finds slots that share no row; otherwise an element is lost |
| SlotSafe.NoEarlierMergeIsClean | src/H5VL_logi_dataspace.cpp:353-363 | no row is shared if no group before the last one shrinks when its rows are merged |
| SlotSafe.RankOneIsClean | src/H5VL_logi_dataspace.cpp:315-363 | in one dimension no row is ever shared |
| SlotSafe.RankTwoIsClean | src/H5VL_logi_dataspace.cpp:315-363 | nor in two dimensions if the merged blocks form a span tree |
| SlotWhole.RankOneIntervals | src/H5VL_logi_dataspace.cpp:238-367 | in one dimension the program's list consists of increasing intervals with a gap between neighbours, and covers the selection |
| SlotWhole.SlicesComeOut | src/H5VL_logi_dataspace.cpp:238-367 | a block delivered in slices along its first k dimensions comes out as one block |
| SlotWhole.BothMergesCount | src/H5VL_logi_dataspace.cpp:252-256 | of three blocks the merge before the sort joins two and the one after it the rest |
| SlotLoss.LossyIsNotClean | src/H5VL_logi_dataspace.cpp:353-363 | of a list in rank three the second group is written through a slot that shares its row with a kept block |
| SlotLoss.LossyLosesElement | src/H5VL_logi_dataspace.cpp:353-363 | that list is disjoint and in span order, and element (1, 2, 0) of it is in no block of the program's list |
| SlotLossFlat.FlatLosesElement | src/H5VL_logi_dataspace.cpp:353-363 | a span tree of rank two in span order of which an element is lost |
| CanonicalForm.CanonicalExact | src/H5VL_logi_dataspace.cpp:238-367 | the canonical list - what the steps make of the blocks when each slot has a row of its own - enumerates, for disjoint blocks, exactly the selection, no element twice, and in row-major order exactly if wherever a group ends all its blocks end before the next one starts |
| CanonicalForm.CanonicalSpanOrder | src/H5VL_logi_dataspace.cpp:238-367 | for blocks whose starts and ends strictly increase the canonical list is in strictly increasing row-major order and enumerates exactly the selection |
| CanonicalForm.AdjacentComparisonIsNotEnough | src/H5VL_logi_dataspace.cpp:259-272 | without increasing ends the comparison with the direct predecessor is not enough |
| Selections.CanonicalisePoints | src/H5VL_logi_dataspace.cpp:369-398 | points become unit blocks, sorted and merged; distinct points that are the elements of a block come out as that one block, in whatever order they were listed |
| Selections.ConsecutivePoints | src/H5VL_logi_dataspace.cpp:369-398 | m points that follow one another along the last dimension are the elements of a block with count m there |
| Selections.PointsSorted | src/H5VL_logi_dataspace.cpp:369-398 | the points come out as a sorted permutation |
| Selections.PointsKeepOrder | src/H5VL_logi_dataspace.cpp:369-398 | the traversal of distinct points is the given list exactly if that list is increasing |
| MetaCodec.WordsRoundTrip | src/H5VL_logi_dataspace.cpp:655-681 | the words of a selection are read back as its blocks exactly if they are stored as coordinates or all in range |
| EntryCodec.OffsetsTile | src/H5VL_logi_meta.cpp:256-275 | data offsets of the blocks are the prefix sums of their sizes: the blocks tile the entry's data |
| EntryCodec.FillOffsets | src/H5VL_logi_meta.cpp:256-275 | the loop gives every block its offset |
| EntryCodec.EntryRoundTrip | src/H5VL_logi_meta.cpp:74-275 | an entry decodes to the selection it was written with exactly if that selection encodes, whatever the dataset's extent has become since |
| RequestBuffer.BuildRequest | src/H5VL_logi_nb.cpp:54-166 | the write is a record write exactly if the rank is positive, the first dimension unlimited and all blocks have count 1 and the same start there; every field of the buffer is at its place: header, record number, count, steps, all starts, all counts |
| EntryLayout.ReferLaid | src/H5VL_log_dataseti.cpp:860-881 | the entry of a reference is header, record number if kept, and the distance back to the entry it refers to |
| Bytes.WordBytes | src/H5VL_logi_nb.cpp:127-165 | words are stored with the byte of least weight first, negative ones as two's complements |
| Bytes.HalfBytes | src/H5VL_logi_nb.cpp:127-165 | the same of 32-bit words |
| RequestBuffer.ReadEntry | src/H5VL_logi_meta.cpp:74-275 | the advancing decoder answers what the specification of an entry says, or fails |
| Dedup.ShapeForced | src/H5VL_logi_nb.cpp:198-206 | requests that compare equal have equally many blocks and equal ranks, and without step encoding or with one block the same record flag |
| Dedup.EqualSelections | src/H5VL_logi_nb.cpp:198-206 | requests that compare equal and agree on the record flag have the same selection below the record dimension |
| RecordFlag.EqualExactly | src/H5VL_logi_nb.cpp:198-206 | two record writes, or two others, of datasets of one rank compare equal exactly if their selections are the same below the record dimension and, where encoded, so are the steps |
| RecordFlag.FlagsTell | src/H5VL_logi_nb.cpp:198-206 | if a record write and another write compare equal, their first blocks start at different places below the first dimension |
| Stream.RefRoundTrip | src/H5VL_logi_meta.cpp:26-66 | a reference to an entry that compares equal is read back as the selection it replaced exactly if both or neither are record writes and there is one block or the element sizes agree |
| WriteQueue.Enter | src/H5VL_log_dataseti.cpp:843-924 | a write that compares equal to any long entry kept in full in the queue is appended as a reference of 36 or 44 bytes, any other in full; the table keeps holding exactly the long entries kept in full; the queue still records all writes exactly if the hit may stand in |
| Stream.RunTable | src/H5VL_log_dataseti.cpp:855-858 | after every sequence of writes the table holds exactly the entries kept in full whose selection is longer than eight bytes, if sharing is on |
| DedupHits.HitStored | src/H5VL_log_dataseti.cpp:855-885 | after any hit the queue records all writes exactly if the hit may stand in for the new one |
| DedupHits.HitReads | src/H5VL_log_dataseti.cpp:855-885 | after any hit the bytes of the queue are read back as its writes exactly under the same condition |
| DedupCases.ElementSizesConfuse | src/H5VL_logi_nb.cpp:198-206 | two writes of the same two elements of datasets with elements of four and eight bytes compare equal, and their metadata are not read back as the two writes |
| DedupCases.RecordFlagsConfuse | src/H5VL_logi_nb.cpp:198-206 | under step encoding a record write and another write compare equal, and their metadata are not read back as the two writes |
| Stream.EnqueueKeeps | src/H5VL_log_dataseti.cpp:1014-1019 | after any further write whose hit, if any, may stand in for it the queue still records all writes: offsets stay exact prefix sums and references land on earlier full entries |
| Stream.SectionRoundTrip | src/H5VL_logi_idx_list.cpp:41-93 | parsing a queue's bytes returns every write's dataset, address, size and selection, in order |
| Stream.StreamRoundTrip | src/H5VL_logi_idx_list.cpp:41-93 | the same for the queue of every sequence of writes, at any place of a larger buffer |
| Stream.PlainHitsAreFaithful | src/H5VL_logi_nb.cpp:198-206 | without step encoding a hit may stand in for the write exactly if there is one block or the element sizes agree |
| IndexSearch.CommonIsIntersection | src/H5VL_logi_idx_list.cpp:95-107 | two blocks meet exactly if they have a common element, and the common block is their intersection |
| IndexSearch.Intersect | src/H5VL_logi_idx_list.cpp:95-107 | the loop answers whether the blocks meet and their common block |
| IndexSearch.ListIndex.ParseBlock | src/H5VL_logi_idx_list.cpp:41-93 | on success every dataset's list grows by its entries of the block, in order |
| IndexSearch.ListIndex.Search | src/H5VL_logi_idx_list.cpp:109-141 | the nested loops find all intersections, request block by request block and entry by entry, with the offsets of both sides |
| IndexCompact.CompactIndex.ParseBlock | src/H5VL_logi_idx_compact.cpp:103-177 | the compact parser keeps its entries in order, with back-references as links |
| IndexCompact.CompactIndex.Search | src/H5VL_logi_idx_compact.cpp:193-292 | the compact search walks its packed blocks, or reads past them |
| IndexCompact.SearchesAgree | src/H5VL_logi_idx_compact.cpp:193-292 | on paired entries the compact search returns the sequence of the list search exactly if no full reference points to a record entry, and faults otherwise |
| IndexCompact.FullRefToRecordFaults | src/H5VL_logi_idx_compact.cpp:210-261 | a full reference to a record entry faults |
| IndexCompact.IndexesAgree | src/H5VL_logi_idx_compact.cpp:38-68 | after both parsed the same bytes they agree exactly if no entry of the dataset is a reference without record number to a record entry |
| StreamIndex.WrittenIndexesAgree | src/H5VL_logi_idx_compact.cpp:103-292 | on everything that the writers can have written, both indexes answer every search of a dataset alike exactly if no record write of it is stored as a reference without its record number; otherwise the compact search faults |
| DedupCases.CallsTell | src/H5VL_log_dataseti.cpp:863-874 | in every run of writes a call drops the record number exactly if it is a shared hit of a record write on one of the same record |
| StreamIndex.FixedEntries | src/H5VL_logi_nb.cpp:70-84 | a dataset whose first dimension is not unlimited never gets a record entry |
| StreamIndex.FixedIndexesAgree | src/H5VL_logi_idx_compact.cpp:193-292 | so both indexes answer every search of it alike |
| DedupCases.RecordTwice | src/H5VL_logi_idx_compact.cpp:210-261 | of two writes of the same elements of one record the second drops its record number, and every search of the dataset in the compact index faults |
| SortOffsets.SortRange | src/H5VL_log_dataseti.cpp:56-91 | bubble sort below sixteen and quicksort above leave a permutation of the triples in order of file offset; both terminate |
| SortOffsets.SwapRemovesOne | src/H5VL_log_dataseti.cpp:60-73 | a swap of neighbours in the wrong order removes an inversion |
| Trim.TrimOverlaps | src/H5VL_log_dataseti.cpp:643-664 | the nested adjustment loops compute the trimmed ranges and the recorded copies |
| Trim.TrimmedLegal | src/H5VL_log_dataseti.cpp:643-664 | after trimming, non-empty ranges increase and are disjoint, and every range keeps its end |
| Trim.TrimmedUnion | src/H5VL_log_dataseti.cpp:643-664 | trimming sorted ranges keeps their union |
| Trim.DirectSource | src/H5VL_log_dataseti.cpp:655 | source bytes of a copy were read directly |
| Trim.TrimServes | src/H5VL_log_dataseti.cpp:643-664 | for all contents, transfers and copies serve every range in full exactly if every range's end is clean |
| Trim.MonotoneEndsServe | src/H5VL_log_dataseti.cpp:643-664 | sorted ranges with non-decreasing ends are served in full |
| Trim.InnerRangeIsNotServed | src/H5VL_log_dataseti.cpp:655 | a range strictly inside an earlier one is not served: for some file contents it gets other bytes |
| InnerRead.InnerRequestIsNotServed | src/H5VL_log_dataseti.cpp:655 | two requests found in one entry, one inside the other, are one group with these ranges, and for some contents an element of a request does not get its byte |
| ReadPlan.ByteOfRun | src/H5VL_log_dataseti.cpp:605-641 | every byte of a run is a byte of an element of the intersection, at its place in file and memory |
| ReadPlan.RunOfByte | src/H5VL_log_dataseti.cpp:605-641 | every byte of every element is in a run |
| RunBreakDown.BreakDownBlock | src/H5VL_log_dataseti.cpp:605-641 | the odometer over the leading dimensions emits every run once, in order |
| ReadGroups.TestInterleaves | src/H5VL_log_dataseti.cpp:30-42 | the loop decides whether the later block starts no later than the earlier one ends |
| ReadGroups.TestEndsAfter | src/H5VL_logi_idx.cpp:36-55 | the comparison is true exactly if some dimension ends later |
| ReadGroups.MarkGroups | src/H5VL_log_dataseti.cpp:497-515 | the loop marks exactly the ends of the groups |
| ReadTypes.GenTypes | src/H5VL_log_dataseti.cpp:446-676 | the planner's types transfer, group by group, a subarray or the trimmed ranges, and the copies are those of the groups |
| ReadLegal.PlanLegal | src/H5VL_log_dataseti.cpp:643-676 | the file type is legal exactly if every earlier group ends before every later one starts |
| ReadGuard.LegalExactly | src/H5VL_log_dataseti.cpp:497-515 | on sorted intersections the file type is legal exactly if each block that starts a new group is behind every earlier block of its entry block |
| ReadGuard.ThreeReadsIllegal | src/H5VL_logi_idx.cpp:36-55 | three requests without a common element, found in one entry, get an illegal file type |
| ReadCuts.ChainCutsReal | src/H5VL_log_dataseti.cpp:497-515 | intersections whose ends form a chain are grouped right |
| ReadCuts.OneDimensionIsChained | src/H5VL_log_dataseti.cpp:497-515 | in one dimension they always do |
| ReadWins.FurthestWins | src/H5VL_logi_nb.cpp:353-438 | after the transfers every address holds the byte of the intersection furthest on in the file, or what was there, and no copy is recorded |
| ReadPath.ReadsLastWriter | src/H5VL_logi_nb.cpp:327-438 | every requested element holds the bytes of the covering block with the greatest file address, else its fill value |
| ReadOrder.CanonicalReadIsLegal | src/H5VL_log_dataseti.cpp:497-676 | a request whose blocks follow one another is read one subarray per intersection, through a legal file type |
| CanonicalRead.SpanOrderExactly | src/H5VL_logi_dataspace.cpp:238-367 | of a span-ordered selection the program's list is complete and in strictly increasing row-major order exactly if no group is written through a shared row |
| CanonicalRead.SpanOrderReadsLegally | src/H5VL_logi_dataspace.cpp:238-367 | then the selection is read through a legal file type whatever the log holds, and no element is asked for twice |
| ReadBatch.PlanServes | src/H5VL_logi_nb.cpp:437-438 | for all contents every destination holds its byte of the file after the transfers and copies of all groups, exactly if the groups have clean ends |
| ReadBatch.BatchIsServed | src/H5VL_logi_nb.cpp:437-438 | requests that overlap, of data of which no coordinate was written twice, all get their full data for all contents exactly if the groups have clean ends |
| ReadRequest.FillBuffer | src/H5VL_logi_nb.cpp:545-559 | the loop puts the fill value into every element of the buffer |
| ReadRequest.CopyOverlaps | src/H5VL_logi_nb.cpp:437-438 | the recorded copies apply in order |
| ReadRequest.PerformRead | src/H5VL_logi_nb.cpp:353-438 | fill, sort, plan, transfer and copy answer every element of every request, for disjoint requests always and for overlapping ones under the batch's guard; the file type is legal exactly under the grouping guard |
| Flush.PlaceLocally | src/H5VL_logi_nb.cpp:663-727 | the gathering loop places the pending requests behind one another |
| Flush.Rebase | src/H5VL_logi_nb.cpp:852-860 | the second loop turns offsets into file addresses |
| Flush.FlushTiles | src/H5VL_logi_nb.cpp:801-859 | final extents follow one another without gap, in order of process and program, and cover the log dataset exactly |
| Flush.FlushStores | src/H5VL_logi_nb.cpp:801-859 | after a flush the data of every request are at its own extent, and what was stored before is unchanged |
| Sections.BuildTable | src/H5VL_log_filei_meta.cpp:92-149 | the gathered sizes become, in place, the number of sections and the running sums behind the table, and every process gets its start |
| Sections.StartsTile | src/H5VL_log_filei_meta.cpp:92-149 | the sections tile the metadata dataset behind the table |
| Sections.PartBytes | src/H5VL_log_filei_meta.cpp:92-149 | the bytes between two section starts are those of the sections between |
| Sections.DatasetRoundTrip | src/H5VL_log_filei_meta.cpp:376-411 | loading a metadata dataset returns the entries of all sections in order |
| Sections.LoadPart | src/H5VL_log_filei_meta.cpp:484-533 | a part is a run of whole sections, at least one and as many as fit: within the limit unless one section alone exceeds it, and with the next section beyond it; it leaves the index with exactly their entries |
| Sections.BoundedSearch | src/H5VL_logi_nb.cpp:335-350 | iterating over the parts terminates, visits every section once and finds the multiset of intersections that a search of everything finds |
| WriteOrder.WriteOrdered | src/H5VL_log_dataseti.cpp:1014-1019 | a write comes behind all pending writes of its process |
| WriteOrder.FlushOrdered | src/H5VL_logi_nb.cpp:801-859 | a flush stores the pending writes behind all stored ones, in order of process and program |
| WriteOrder.AllStored | src/H5VL_logi_nb.cpp:801-859 | with nothing pending every call's write is in the log |
| Protocol.WriteKeeps | src/H5VL_log_dataseti.cpp:843-924 | a write keeps the invariant |
| Protocol.ExtentKeeps | src/H5VL_log_dataset.cpp:545-566 | a change of extent keeps it: recorded entries carry their own steps |
| Protocol.FlushKeeps | src/H5VL_logi_nb.cpp:801-903 | a flush keeps it and leaves nothing pending |
| Protocol.MetaKeeps | src/H5VL_log_filei_meta.cpp:303-318 | a metadata flush with nothing pending keeps it, clears the queues and invalidates the indexes |
| Protocol.LoadKeeps | src/H5VL_log_filei_meta.cpp:376-411 | loading the index keeps it |
| Protocol.RunKeeps | src/H5VL_log_filei.cpp:659-689 | safety over all runs: flushed requests first and never more than the queue, stored at their addresses, every write recorded or pending exactly once and in order, a valid index the parse of all metadata datasets |
| Protocol.CleanRecordsAll | src/H5VL_logi_nb.cpp:327-333 | with clean metadata the metadata datasets record exactly the stored writes, each once |
| Protocol.ClosedRecordsAll | src/H5VL_log_filei.cpp:742-751 | after a close every write issued is stored once and recorded once |
| PlainArray.DeciderIsLast | src/H5VL_logi_nb.cpp:327-438 | a write decides an element of the array exactly if it covers it and every other covering write is before it |
| PlainArray.OneProcessArray | src/H5VL_logi_nb.cpp:327-438 | with one process the array is the one to which the writes were applied in the order of the calls |
| PlainArray.LogIsArray | src/H5VL_logi_nb.cpp:801-859 | with nothing pending the stored writes, in order of their addresses, make up that array |
| PlainArray.ReadIsPlain | src/H5VL_logi_nb.cpp:353-438 | what a read answers is what an array holds to which the stored writes were applied in order |
| OpenFile.LogFile.constructor | src/H5VL_log_filei.cpp:659-689 | a new file satisfies the invariant |
| OpenFile.LogFile.Write | src/H5VL_log_dataseti.cpp:843-924 | a write call appends one entry to its process's queue, as a reference exactly if an equal long entry is there, records the write as pending and changes nothing else; an empty selection changes nothing |
| OpenFile.LogFile.SetExtent | src/H5VL_log_dataset.cpp:545-566 | the dataset has the new extent, its steps are the products of the new extents, and nothing else changes |
| OpenFile.LogFile.PendingWrites | src/H5VL_log_filei.cpp:659-685 | the count is the greatest number of pending writes of any process, zero exactly if none has any |
| OpenFile.LogFile.Flush | src/H5VL_logi_nb.cpp:663-903 | the flush is the protocol's step: offsets, addresses, file contents, flags |
| OpenFile.LogFile.MetaFlush | src/H5VL_log_filei_meta.cpp:92-318 | the metadata flush writes the table and sections behind the metadata datasets there are, empties every queue and table, and invalidates every index |
| OpenFile.LogFile.LoadIndex | src/H5VL_log_filei_meta.cpp:376-411 | loading parses every metadata dataset into the index |
| OpenFile.LogFile.Settle | src/H5VL_log_dataseti.cpp:1126-1142 | before a read nothing is pending, the metadata are clean, and an unlimited index is valid; no call is lost and the log only grows |
| OpenFile.LogFile.Read | src/H5VL_log_dataseti.cpp:1126-1142 | a read answers, byte by byte, the array of all writes issued so far, elements never written their fill value; canonical requests use a legal file type; it fails exactly if the partial loader finds no metadata dataset |
| OpenFile.LogFile.Close | src/H5VL_log_filei.cpp:742-751 | after a close nothing is pending and every write issued is stored once, in order, and recorded once |

## Left out

- Wrappers of the VOL interface (attributes, groups, links, objects, tokens, info strings, property lists, environment), profiling and name remapping: easy members only.
- Merged requests, metadata compression, data filters (with `dsize` and `xsize`), subfiling, passthrough reads and the aligned writers are off.
- Type conversion, memory-space packing, byte order of the platform, and what lies in the file between two log datasets.
- Start and count of a block are one row with one pointer instead of two rows with two pointers, and file offset, memory offset and length of a range are one array of triples: that parts of one entry move together is then built into the move. In the point case the program sorts the pointers to the starts only; there all counts are the same.
- Rows start as zeros instead of whatever the allocation left in them.
- Requests are values in a queue, not heap objects with buffers of their own; `RequestBuffer` fills and reads the buffers as arrays.
- The planner breaks every group down into an array of its own instead of a segment of one array.
- Subarray types are represented by the list of contiguous runs they describe.
- The hash function: any request that compares equal may be found.
- 64-bit fields are ranges that the guards of the steps demand (`Dedup.WriteOk`, `OpenFile.Room`); overflow of a sum is outside the model.
- Protocol.ExtentKeeps: only the number of dimensions stays fixed under a change of extent; maximal extents are not checked.
- OpenFile.LogFile.SetExtent: the refusal of an extent beyond the maximal one is not modelled.
- RequestBuffer.BuildRequest: only selections that step encoding reads back (`EntryCodec.Encodes`); for the others `EntryCodec.EntryRoundTrip` says that they are read back wrong. Data offset and data size are in the header from the start; the program fills them in later.
- OpenFile.LogFile.Write: the deduplication must not hit an entry that may not stand in for the write (`WriteQueue.NoFalseHit`); `DedupHits.HitReads` says that exactly then the metadata are read back wrong.
- Protocol.WriteKeeps: the same guard, for the same reason; `WriteQueue.Enter` has none.
- Stream.EnqueueKeeps: the same guard; `DedupHits.HitStored` is the statement about every hit.
- CanonicalRead.SpanOrderReadsLegally: only for selections that the canonicaliser does not spoil; what it makes of the others is the finding about shared rows.
- OpenFile.LogFile.MetaFlush: nothing may be pending on any process; an independent read with pending writes of other processes can break this in the program and is not part of this model.
- OpenFile.LogFile.Read: one request of one dataset; its blocks have no element in common. Batches of requests are `ReadRequest.PerformRead`.
- ReadRequest.PerformRead: the requests of a batch are of one dataset and their buffers lie behind one another in one memory; a batch over several datasets is not part of this model. With overlapping requests of data written twice the result is not stated.
- ReadRequest.MemCopy: source and destination of one copy do not overlap, as memcpy demands.
- ReadTypes.GenTypes: scalar intersections share their entry block with no other, as the break-down of a group has no row to count in zero dimensions.
- Reading outside a metadata buffer is an error value.
- Unlinked datasets and reads by a process while others write.
