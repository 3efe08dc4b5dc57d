# A model of the rapi repository

rapi is a deduplicating backup store. Files are cut into blobs, which are sealed, collected in packs, recorded in
indexes and found again by their hashes; snapshots refer to trees, and trees to blobs. This project models the parts of
it in which many things have to fit together, and proves what they promise for all inputs, all runs or all reachable
states.

| file | what it models |
|---|---|
| `Blobs.dfy`, `Crypto.dfy` | identifiers, blob handles and locations; sealing as a pair of functions where opening undoes sealing |
| `IndexMap.dfy` | the chained hash table with its free list, on the heap |
| `PackLists.dfy`, `Index.dfy`, `MasterIndex.dfy`, `IndexFiles.dfy` | indexes, the master index, merging, writing and reading index files |
| `Pack.dfy` | packers, pack headers and how they are read |
| `SaveProtocol.dfy`, `Repository.dfy` | saving from many callers as a protocol of atomic steps; the repository object whose methods take these steps; loading |
| `Restart.dfy` | loading in a new process, from what was written |
| `Filter.dfy` | matching paths against patterns with `**`, and pruning directories |
| `TreeStream.dfy` | the traversal that finds the used blobs |
| `Lock.dfy` | the lock protocol |
| `Repack.dfy`, `RepackRun.dfy` | racing repack workers; what is left after the old packs are removed |
| `Restore.dfy`, `FilesWriter.dfy`, `RestoreRun.dfy`, `RestoreWorkers.dfy` | planning and writing restored files; creating files once and sharing handles; what is on disk in the end; the download workers |
| `Policy.dfy` | the retention policy |
| `BlobLru.dfy`, `FuseFile.dfy`, `FuseRun.dfy` | the blob cache and reading from the mounted repository |

Objects that the code updates in place are classes with the same fields, loops are loops, and concurrent code is a
state machine whose steps are what happens under one lock or in one channel operation. A hidden choice of the
environment (whether an index is full, which goroutine moves next, the nonce, the iteration order of a map) is a
parameter or a nondeterministic choice, so that a result covers all of them.

Some properties turned out to hold only under a condition. They are stated with the exact condition: `**` matching is
complete for at most one `**` (`Filters.CompleteExactly`), and what it finds for more of them is given by its search
bound (`Filters.ExploresExactly`); locking excludes in all runs if checks are atomic or locks are not refreshed
(`Locks.SafeExactly`), and otherwise in the runs in which no refresh goes unnoticed (`Locks.NoticedExcludes`); a pack
can be listed back if there is a blob, lengths are below 2^32 and the header is not too large
(`Packs.PackRoundTripExactly`), which the repository's own packs always meet (`SaveProtocol.RunListable`); a restored
file is right if its declared size is not above the indexed one, or it could not be preallocated
(`RestoreWorkers.RestoreEnds`); and the retention counters work unless the newest snapshot is from the year -1 and the
policy asks for its year (`Policies.ExactlyYearSeen`).

Where documentation and code differ, the model follows the code. `Match` documents that `**` matches any number of
directories, but while the first `**` is expanded every further one counts as one component, so that such a pattern can
miss a path (`Filters.TwoDoublesMiss`).

## Model

| member | source | states |
|---|---|---|
| `IndexMaps.BitAndBound` | repository/indexmap.go:112-122 | A masked hash never exceeds the mask, for all hashes and masks; with the mask one below the bucket count, every hash has a bucket |
| `IndexMaps.TableSizeDoubles` | repository/indexmap.go:97-99 | Doubling keeps the bucket count at 64 times a power of two |
| `IndexMaps.EnumerationIsPermutation` | repository/indexmap.go:56-65 | Any enumeration of the placed entries, bucket by bucket, is a permutation of the entries in the order they were added |
| `IndexMaps.TraversalRecords` | repository/indexmap.go:56-65 | The chains, walked bucket by bucket, hold exactly the multiset of records that were added |
| `IndexMaps.VisitedRecords` | repository/indexmap.go:68-80 | The entries of one bucket that have an identifier are exactly the added records with that identifier, as a multiset |
| `IndexMaps.IndexMap.constructor` | repository/indexmap.go:124-127 | A new table is empty: no record, no chain, an empty free list |
| `IndexMaps.IndexMap.NewEntry` | repository/indexmap.go:131-152 | Hands out an entry that is in no chain and no longer in the free list; chains and free list stay acyclic and disjoint, also across a refill by a batch |
| `IndexMaps.IndexMap.Refill` | repository/indexmap.go:139-145 | A batch of fresh entries becomes a free list without repetition that shares nothing with the chains |
| `IndexMaps.IndexMap.MoveEntry` | repository/indexmap.go:101-108 | Moving an entry to its new bucket while its old chain is being walked loses no entry and duplicates none |
| `IndexMaps.IndexMap.MoveChain` | repository/indexmap.go:102-108 | A whole old chain ends up in the new buckets, each entry under its hash |
| `IndexMaps.IndexMap.Grow` | repository/indexmap.go:97-110 | Relinking all entries in place into twice as many buckets keeps the multiset of records and the free list, for every content |
| `IndexMaps.IndexMap.Add` | repository/indexmap.go:35-53 | One more record, all others unchanged; the bucket count stays 64 times a power of two and the number of entries at most 4 times the bucket count |
| `IndexMaps.IndexMap.ForEach` | repository/indexmap.go:56-65 | Visits every added record exactly once (as a multiset), or stops at the first record the callback refuses |
| `IndexMaps.IndexMap.ForEachWithId` | repository/indexmap.go:68-80 | Yields exactly the multiset of added records with the identifier |
| `IndexMaps.IndexMap.Get` | repository/indexmap.go:83-95 | Finds nothing if and only if no record with the identifier was added; what it finds is such a record |
| `Indexes.ResolveReorders` | repository/index.go:166-178 | Resolving pack positions commutes with reordering: the multiset of packed blobs depends only on the multiset of records |
| `Indexes.ResolveSelected` | repository/index.go:181-190 | Selecting table records by identifier selects exactly the packed blobs with the handle |
| `Indexes.Index.Store` | repository/index.go:76-84 | One more packed blob of its type; the other types are unchanged |
| `Indexes.Index.StorePack` | repository/index.go:150-164 | All blobs of a pack are added under the pack id, each to its type, and nothing else changes |
| `Indexes.Index.Lookup` | repository/index.go:181-190 | Appends exactly the multiset of known locations of the handle to what was passed in |
| `Indexes.Index.Has` | repository/index.go:211-216 | True if and only if some location of the handle is known |
| `Indexes.Index.LookupSize` | repository/index.go:220-229 | Nothing if and only if the handle is unknown; otherwise the plaintext length by one of its locations |
| `Indexes.Index.HasIdenticalEntry` | repository/index.go:542-551 | True if and only if the same location, including pack, offset and length, is already there |
| `Indexes.MergedCount` | repository/index.go:553-564 | After merging, a location has the multiplicity it had before, or exactly one if only the other index knew it |
| `Indexes.Index.MergeEntry` | repository/index.go:553-561 | Adds a location of the other index under the shifted pack position, unless it is an exact duplicate; it resolves to the same pack id |
| `Indexes.Index.MergeType` | repository/index.go:537-564 | One type of another index is merged: old multiplicities stay and every missing location is added exactly once |
| `Indexes.Index.Merge` | repository/index.go:522-567 | All types are merged that way, ids are joined, mixed packs are united; refuses without effect if and only if the other index is not final |
| `Indexes.Index.Finalize` | repository/index.go:441-449 | The index is final and its contents are unchanged |
| `Indexes.Index.AddToSupersedes` | repository/index.go:238-248 | Appends the ids, and fails without effect if and only if the index is final |
| `Indexes.Index.EachOfType` | repository/index.go:304-329 | The groups hold, per pack, exactly the locations of one type that are not blacklisted in a final index |
| `Indexes.Index.EachByPack` | repository/index.go:292-330 | Over all types, every location that is not left out occurs exactly as often as in the index |
| `Indexes.Index.GeneratePackList` | repository/index.go:367-407 | The pack list contains every location with its multiplicity and no pack twice |
| `Indexes.Index.Encode` | repository/index.go:415-438 | The encoded record has the supersedes list and, location by location, the contents of the index |
| `Indexes.Decode` | repository/index.go:577-626 | The decoded index is final, has the file's id and supersedes, and holds every listed location with its multiplicity; packs with several blob types are marked as mixed, and only those |
| `MasterIndexes.MasterIndex.constructor` | repository/master_index.go:23-30 | A new master index starts with one empty final index |
| `MasterIndexes.MasterIndex.Lookup` | repository/master_index.go:33-42 | Returns exactly the multiset of locations over all indexes |
| `MasterIndexes.MasterIndex.LookupSize` | repository/master_index.go:45-56 | The same over all indexes |
| `MasterIndexes.MasterIndex.Has` | repository/master_index.go:85-101 | True if and only if the handle is pending or indexed somewhere |
| `MasterIndexes.MasterIndex.AddPending` | repository/master_index.go:62-81 | Succeeds if and only if the handle is neither pending nor indexed; then, and only then, it becomes pending |
| `MasterIndexes.MasterIndex.Insert` | repository/master_index.go:169-174 | The index is appended; the others are unchanged |
| `MasterIndexes.MasterIndex.StorePack` | repository/master_index.go:177-196 | The pack enters the first index that is not final, or a new one, and its handles stop being pending |
| `MasterIndexes.MasterIndex.FinalizeIndexes` | repository/master_index.go:200-242 | Exactly the open indexes that are full become final; they are returned once each, in their order; nothing else changes |
| `MasterIndexes.MasterIndex.MergeFinalIndexes` | repository/master_index.go:287-309 | After the in-place compaction there is one final index, which merged all others; open indexes are kept in order |
| `MasterIndexes.MergeKeepsLookups` | repository/master_index.go:287-309 | Merging changes no lookup: for every handle the set of locations found is the same before and after |
| `IndexFiles.Save` | repository/master_index.go:318-402 | However often the output is split, the written files hold every entry of open indexes and every entry of final indexes whose pack is not blacklisted, with its multiplicity; the union of the supersedes lists is the returned obsolete set |
| `IndexFiles.DecodeAll` | repository/repository.go:449-468 | Decoding index files into a master index keeps every entry with its multiplicity |
| `IndexFiles.SaveAndDecode` | repository/master_index.go:318-402 | Round trip: what is decoded from the files of Save is exactly what Save was to keep |
| `IndexFiles.LoadIndex` | repository/repository.go:449-481 | After loading there is one final index that knows a location once if some file lists it and not at all otherwise |
| `Packs.LittleEndianRoundTrip` | pack/pack.go:90-96 | Four-byte lengths are read back as they were written |
| `Packs.EntryRoundTrip` | pack/pack.go:298-318 | A header entry is parsed back to the same type, length and id |
| `Packs.HeaderRoundTrip` | pack/pack.go:257-291 | A whole header is parsed back to the blobs, with offsets recomputed from the lengths |
| `Packs.ReadRecordsMeaning` | pack/pack.go:172-213 | The eager read and the optional second read return exactly the declared header bytes, or the error that the declared length deserves, for arbitrary file contents |
| `Packs.ReadHeaderMeaning` | pack/pack.go:220-244 | The header is returned if and only if the file is long enough and the declared length acceptable; otherwise the error is that of a short file or of the first check the length fails; no slice is ever out of range |
| `Packs.List` | pack/pack.go:257-291 | Listing agrees with the specification for every file, including malformed ones |
| `Packs.Packer.constructor` | pack/pack.go:28-30 | A new packer is empty |
| `Packs.Packer.Add` | pack/pack.go:34-47 | The blob is appended at the offset recorded for it; offsets stay consecutive |
| `Packs.Packer.MakeHeader` | pack/pack.go:102-122 | Succeeds if and only if all blobs are data or tree blobs, and gives their encoding |
| `Packs.Packer.Finalize` | pack/pack.go:61-99 | Appends the sealed header and its length; fails without effect on unknown types |
| `Packs.PackRoundTrip` | pack/pack.go:34-122 | Listing a finished pack returns the added blobs: types, ids, lengths and offsets |
| `Packs.PackRoundTripExactly` | pack/pack.go:34-122 | The round trip holds if and only if there is a blob, every length is below 2^32 and the header is within the size readers accept; this includes headers whose length does not fit the four bytes written for it |
| `Packs.PackSize` | repository/master_index.go:138-153 | The sizes computed from index entries are, for every pack, the sum of the entry costs plus the header overhead |
| `Packs.PackCostReorders` | repository/master_index.go:138-153 | The computed size does not depend on the order in which entries are visited |
| `Packs.PackSizeIsFileSize` | repository/master_index.go:138-153 | For duplicate-free entries the computed size is the real size of the pack file, and of its header |
| `SaveProtocol.RecordKnown` | repository/master_index.go:177-196 | Recording a pack makes exactly its blobs known in addition |
| `SaveProtocol.StepGrows` | repository/master_index.go:169-309 | No step of any caller, and no insert, finalize or merge, makes the index forget a location |
| `SaveProtocol.StepHas` | repository/master_index.go:62-101 | Under every step a known or pending handle stays known or pending |
| `SaveProtocol.StepConserves` | repository/packer_manager.go:57-154 | Every step keeps the number of saves equal to the number of copies over claims, open packers, packers being closed or stored, and recorded packs |
| `SaveProtocol.AppendedOk` | repository/repository.go:256-288 | Sealing and appending a blob keeps all earlier blobs readable at their offsets and makes the new one readable; its offset is below the minimal pack size |
| `SaveProtocol.StepHealthy` | repository/repository.go:256-299 | Every step keeps open packers below the minimal pack size and of one type, and every open, stored or indexed blob readable as its plaintext, in a pack with a name that index files can list and with a length that indexes can hold |
| `SaveProtocol.StepAccounted` | repository/repository.go:685-703 | Every step keeps: a pending handle has been saved, and at most one save found it unknown |
| `SaveProtocol.StepFiles` | repository/repository.go:422-445 | Every step keeps: the indexes that were closed, written as files or still to be written, list exactly the locations that final indexes know, also across merges |
| `SaveProtocol.RunInv` | repository/repository.go:256-299 | All of this holds in every state of every run of any number of callers |
| `SaveProtocol.RunHas` | repository/master_index.go:85-101 | Over every run, Has never goes from true to false |
| `SaveProtocol.OneFindsUnknown` | repository/repository.go:685-703 | Of any two saves of a handle, in any interleaving, the later one finds it known |
| `SaveProtocol.PackedOnce` | repository/repository.go:685-703 | Without stored duplicates a handle is in at most one place at any time: it is sealed and packed at most once |
| `SaveProtocol.QuietLoadable` | repository/repository.go:354-378 | When no caller is at work and no packer is open, every handle with contents is indexed and all its locations hold its plaintext |
| `SaveProtocol.SavedLoadable` | repository/repository.go:161-235 | In every run, once everything is flushed, every saved blob can be loaded as it was saved |
| `SaveProtocol.FileListable` | pack/pack.go:34-122 | The file of a pack that the protocol fills and closes can be listed, and lists its blobs: offsets below the minimal pack size bound the number of blobs and so the header |
| `SaveProtocol.RunListable` | repository/packer_manager.go:108-154 | In every state of every run, every pack file that is written is named by its hash and can be listed, and lists exactly the blobs that were packed |
| `Repositories.SortCachedPacksFirst` | repository/repository.go:135-157 | The in-place partition puts the blobs of cached packs first and keeps the order otherwise |
| `Repositories.CachedPartitions` | repository/repository.go:135-157 | The partition is a permutation |
| `Repositories.LoadFrom` | repository/repository.go:174-235 | The first location that can be read, opened and has the right hash decides; it fails if and only if every location is skipped |
| `Repositories.LoadAny` | repository/repository.go:171-235 | Whatever the cache holds and in whatever order: if every location yields a plaintext, that plaintext is returned |
| `Repositories.PackerManager.FindPacker` | repository/packer_manager.go:57-96 | Hands out the first open packer, whose place the last one takes, or a new empty one |
| `Repositories.PackerManager.InsertPacker` | repository/packer_manager.go:99-105 | The packer is appended |
| `Repositories.Repository.constructor` | repository/repository.go:44-53 | A new repository is an initial state of the protocol |
| `Repositories.Repository.Find` | repository/packer_manager.go:57-96 | On the objects, findPacker is the find step of the protocol |
| `Repositories.Repository.Append` | repository/repository.go:259-288 | Sealing and Packer.Add are the add step of the protocol |
| `Repositories.Repository.Put` | repository/packer_manager.go:99-105 | insertPacker is the put step of the protocol |
| `Repositories.Repository.Upload` | repository/packer_manager.go:108-131 | Finalizing and writing to the backend is the upload step; it is refused if and only if another file has the same name, or the hash is the null id |
| `Repositories.Repository.Record` | repository/packer_manager.go:145-147 | StorePack is the record step of the protocol |
| `Repositories.Repository.SaveIndexes` | repository/repository.go:422-434 | Each index given is written as a file that lists exactly its contents |
| `Repositories.Repository.SaveFullIndex` | repository/repository.go:422-445 | The newly closed indexes are written as index files, in order, and final indexes are merged, as the protocol says; nothing else changes |
| `Repositories.Repository.SavePacker` | repository/packer_manager.go:108-154 | Writing and recording a packer keeps the invariant; it fails only if the backend refuses this very file |
| `Repositories.Repository.SaveAndEncrypt` | repository/repository.go:256-299 | A claimed blob is packed and, if the packer is large enough, the packer is written; the invariant is kept |
| `Repositories.Repository.Claim` | repository/repository.go:687-698 | addPending is the begin step of the protocol; known says what the index had to say before |
| `Repositories.Repository.SaveBlob` | repository/repository.go:685-703 | Returns the hash as id, known if and only if the handle was known, and afterwards the handle has the saved contents; a known blob is not packed again unless duplicates are wanted |
| `Repositories.Repository.FlushType` | repository/repository.go:363-376 | All open packers of a type are written and recorded |
| `Repositories.Repository.FlushPacks` | repository/repository.go:354-378 | Afterwards no packer is open; contents are unchanged; it fails only if the backend refuses one of the packs |
| `Repositories.Repository.Flush` | repository/repository.go:341-351 | Afterwards no packer is open and, unless index updates are off, every index is final and written; contents are unchanged; it fails only if the backend refuses one of the packs |
| `Repositories.Repository.LoadBlob` | repository/repository.go:161-235 | What is returned has the right hash; not found if and only if not indexed; after a flush every saved blob is returned exactly, whatever is cached |
| `Repositories.LoadAfterRun` | repository/repository.go:161-235 | After any interleaving of any number of callers, once everything is flushed, a load returns a saved blob exactly as some caller saved it |
| `Restarts.ReloadedLoadable` | repository/repository.go:449-481 | Once everything is flushed and the indexes are written, an index rebuilt from the index files alone leads to the plaintext of every saved blob |
| `Restarts.LoadFromFiles` | repository/repository.go:449-481 | Reading the index files into a new master index and loading a handle gives its contents, whatever is cached |
| `Restarts.LoadAfterRestart` | repository/repository.go:161-235 | After any interleaving of any number of callers, once everything is flushed and written, a new process that has only the backend and the index files loads a blob exactly as it was saved |
| `Restarts.LoadReopened` | repository/repository.go:449-481 | The same for the repository object: a successful Flush and reopening lose nothing |
| `Filters.Soundness` | internal/filter/filter.go:146-217 | A match is justified by an expansion of every ** into zero or more * that matches at an allowed offset, for any number of ** |
| `Filters.DenotesFilled` | internal/filter/filter.go:146-217 | A pattern denotes a path if and only if some numbers of * for its ** give a pattern without ** that fits |
| `Filters.ExploresExactly` | internal/filter/filter.go:146-217 | For any number of **, a well-formed pattern matches if and only if such numbers exist within the search bound: while one ** is expanded, every later one counts as a component |
| `Filters.Completeness` | internal/filter/filter.go:146-217 | With at most one **, a path that some expansion matches is within the search bound and is not answered with no |
| `Filters.MatchesExactly` | internal/filter/filter.go:146-217 | If the components of the pattern and * are well formed and there is at most one **, matching decides exactly what the pattern denotes, without error; other patterns may be malformed |
| `Filters.CompleteExactly` | internal/filter/filter.go:150-171 | A satisfiable pattern is matched completely if and only if it has at most one ** |
| `Filters.TwoDoublesMiss` | internal/filter/filter.go:150-171 | A concrete pattern with two ** that denotes a path but does not match it |
| `Filters.Monotone` | internal/filter/filter.go:146-217 | What matches a directory matches everything below it |
| `Filters.ChildCovers` | internal/filter/filter.go:114-134 | The child matcher over-approximates: if the path or anything below it matches, children are not ruled out |
| `Filters.PruningSafe` | internal/filter/filter.go:247-293 | If no child may match a non-empty path, the list matches nothing below it, with negated patterns too |
| `Filters.ListingMeaning` | internal/filter/filter.go:247-293 | The last pattern that matches a path decides |
| `Filters.HasDoubleWildcard` | internal/filter/filter.go:136-144 | Finds the first ** if there is one |
| `Filters.NextExpansion` | internal/filter/filter.go:152-171 | The scratch array reused by the loop is always prefix, i stars, tail |
| `Filters.MatchStatic` | internal/filter/filter.go:173-217 | The loops over offsets and components agree with the specification of matching without ** |
| `Filters.Match` | internal/filter/filter.go:146-217 | The recursive matcher on the shared scratch array terminates (by the number of **) and agrees with the specification |
| `Filters.List` | internal/filter/filter.go:247-293 | The loop over patterns agrees with the specification, including errors |
| `TreeStreams.SubtreesMember` | restic/tree.go:92-100 | The subtrees are exactly those that directories name |
| `TreeStreams.PopInv` | restic/tree_stream.go:68-87 | Taking an identifier from the backlog keeps the invariant: counters tell the live identifiers of every root, only reachable trees are on their way, nothing wanted is lost, new trees are handed out once; and it makes progress |
| `TreeStreams.SendInv` | restic/tree_stream.go:98-100 | Handing an identifier to a loader keeps the invariant and makes progress |
| `TreeStreams.ReceiveInv` | restic/tree_stream.go:102-144 | Taking a loaded tree back and queueing its subtrees keeps the invariant and makes progress |
| `TreeStreams.DeliverInv` | restic/tree_stream.go:146-149 | Streaming a tree to the consumer keeps the invariant and makes progress |
| `TreeStreams.ConsumeInv` | restic/find.go:35-51 | Adding the file blobs of a tree keeps the invariant and makes progress |
| `TreeStreams.ReceiveCounted` | restic/tree_stream.go:110-140 | The root counter stays the number of live identifiers when a tree is replaced by its subtrees, and progress is reported when it reaches zero |
| `TreeStreams.EndComplete` | restic/find.go:19-54 | At the end the used blobs are closed under references, so everything reachable is used |
| `TreeStreams.FindUsedBlobs` | restic/find.go:19-54 | From a reference-closed set, every uncancelled run in which all trees load terminates without deadlock, with exactly the starting set plus all reachable trees and their file blobs; every new tree is loaded exactly once and progress is reported exactly once per root |
| `Locks.StepKeeps` | restic/lock.go:86-122 | Every step keeps the protocol invariant if it does not remove, by a refresh, the only file by which a checking process would notice a conflicting lock |
| `Locks.StepKeepsExactly` | restic/lock.go:218-231 | A step keeps the invariant if and only if it is of that kind |
| `Locks.NoticedKeeps` | restic/lock.go:86-159 | The invariant holds in every state of every run of such steps, with split checks and refreshes, for any number of processes |
| `Locks.NoticedExcludes` | restic/lock.go:86-159 | Every run of such steps excludes: a held exclusive lock is the only held lock |
| `Locks.SafeRunNoticed` | restic/lock.go:141-159 | With atomic checks, or without refreshes, every run is of that kind |
| `Locks.UnnoticedFails` | restic/lock.go:218-231 | From every reachable state in which a refresh may go unnoticed and nothing else stops the checking process, two conflicting locks can be held |
| `Locks.InvImpliesMutualExclusion` | restic/lock.go:86-122 | The invariant implies that a held exclusive lock is the only held lock |
| `Locks.LostRefresh` | restic/lock.go:218-231 | With split checks and refreshes there is a run that ends with two exclusive locks |
| `Locks.SafeExactly` | restic/lock.go:86-122 | Mutual exclusion holds in all runs if and only if checks are atomic or locks are not refreshed |
| `Repacking.ClaimedPlaced` | repository/repack.go:144-154 | The recheck under the lock moves a handle from the set to keep to one worker, or leaves everything as it is |
| `Repacking.LookInv` | repository/repack.go:102-111 | The first check keeps the invariant: every kept handle is in one place, and nothing wanted is passed over |
| `Repacking.ClaimInv` | repository/repack.go:144-154 | The recheck keeps the invariant |
| `Repacking.SaveInv` | repository/repack.go:156-160 | Saving what was claimed keeps the invariant |
| `Repacking.FetchInv` | repository/repack.go:92-98 | Fetching a pack keeps the invariant |
| `Repacking.Repack` | repository/repack.go:91-175 | In every successful run of any number of workers, every kept handle that occurs in the packs is saved exactly once, with a plaintext read from the packs and the right hash, and the set to keep loses exactly those; a run over intact packs succeeds |
| `RepackRuns.WrittenIntact` | repository/repack.go:47-143 | Packs that were written in a run can be downloaded, listed and read, so repacking them succeeds |
| `RepackRuns.SaveableAgain` | repository/repack.go:156-160 | What a repack saves is the plaintext that is behind the handle already, so it can be saved in any later state |
| `RepackRuns.RepackWritten` | repository/repack.go:27-175 | Repacking packs written in a run cannot fail, saves every kept handle that occurs in them once, and every such save is possible in every later state |
| `RepackRuns.CopyElsewhere` | repository/repack.go:156-160 | A blob saved as a duplicate between two flushed states, in any interleaving, has a location in a pack that is none of the old ones |
| `RepackRuns.PrunedLoadable` | repository/master_index.go:318-402 | Without some packs and their index entries, a blob is indexed if and only if it has a location in another pack, and then it can be loaded as before |
| `RepackRuns.LoadWithout` | repository/master_index.go:318-402 | Saving the index without some packs, removing them and restarting, a blob with a location elsewhere is loaded exactly |
| `RepackRuns.LoadAfterRepack` | repository/repack.go:27-190 | After a repack in any run of any number of callers, a flush, an index save that leaves out the old packs, their removal and a restart, every kept blob and every blob in another pack is loaded as it was before |
| `Restores.PlanFile` | internal/restorer/filerestorer.go:112-143 | Fails if and only if a blob is unknown; otherwise the packs of the file are registered and, for a large file, every blob is filed under its pack with its prefix-sum offset |
| `Restores.PlanFiles` | internal/restorer/filerestorer.go:103-143 | All packs in use are listed once, each with exactly the files that use it |
| `Restores.PlacesIn` | internal/restorer/filerestorer.go:206-228 | The plans of small and large files give the same places for every pack |
| `Restores.Collect` | internal/restorer/filerestorer.go:180-229 | The collected blobs of a pack are exactly those that some file takes from it, with all their offsets per file, and the range is the tightest that covers them |
| `Restores.SortBlobs` | internal/restorer/filerestorer.go:231-237 | All collected blobs, once each, by offset in the pack |
| `Restores.Stream` | internal/restorer/filerestorer.go:247-303 | The reader only moves forward, and every blob is decrypted from its own bytes and written at each of its places exactly as often as due |
| `Restores.DownloadPack` | internal/restorer/filerestorer.go:180-314 | The writes from a pack are exactly those due from it |
| `Restores.RestoreFiles` | internal/restorer/filerestorer.go:103-176 | Over all packs every write is made exactly as often as due; the run succeeds if all blobs are known and readable |
| `Restores.WrittenOnce` | internal/restorer/filerestorer.go:275-300 | The writes to a file are one for every occurrence of a blob, at its prefix-sum offset |
| `Restores.RestoredFile` | internal/restorer/filerestorer.go:103-303 | In whatever order the writes to a file happen, it ends as the concatenation of its blobs if and only if it did not start out longer |
| `Restores.RestoredBySize` | internal/restorer/fileswriter.go:61-74 | A file that is created with its declared size in zeros, or empty if it cannot be preallocated, ends as the concatenation of its blobs if and only if the declared size is not above the indexed one, or it could not be preallocated |
| `FilesWriters.StepCounted` | internal/restorer/fileswriter.go:40-90 | Every step keeps the user count of a path equal to the number of writers between acquire and release, who all hold the open handle |
| `FilesWriters.StepCreated` | internal/restorer/filerestorer.go:277-294 | Every step keeps: a file is untouched until its first writer, alone beyond the lock, has truncated it |
| `FilesWriters.StepApart` | internal/restorer/fileswriter.go:44-90 | Different paths never share a handle, also in one bucket, so closing one does not close another |
| `FilesWriters.RunInv` | internal/restorer/fileswriter.go:37-106 | All of this holds in every state of every run of any number of writers |
| `FilesWriters.CreatedOnce` | internal/restorer/filerestorer.go:277-294 | In every run a file is truncated at most once and before anything else is done to it, and no write hits a closed handle |
| `FilesWriters.OpenWhileUsed` | internal/restorer/fileswriter.go:44-90 | In every run a path has an open handle if and only if its user count is positive, and the count is right |
| `FilesWriters.FindsFile` | internal/restorer/fileswriter.go:49-59 | A writer that does not create a file always finds it there |
| `FilesWriters.NeverStuck` | internal/restorer/fileswriter.go:37-106 | While writers are at work one of them can go on, whatever the others wait for |
| `FilesWriters.FilesWriter.constructor` | internal/restorer/fileswriter.go:26-35 | All buckets are empty |
| `FilesWriters.FilesWriter.AcquireWriter` | internal/restorer/fileswriter.go:40-77 | On the object, acquiring is the acquire step of the protocol; it fails if and only if a file is to be opened that is not there |
| `FilesWriters.FilesWriter.WriteAt` | internal/restorer/fileswriter.go:97-103 | On the object, writing is the write step of the protocol |
| `FilesWriters.FilesWriter.ReleaseWriter` | internal/restorer/fileswriter.go:79-90 | On the object, releasing is the release step of the protocol |
| `RestoreRuns.RunOnDisk` | internal/restorer/fileswriter.go:37-106 | In every run a file that was created holds what its creation and the writes through open handles made of it, in their order |
| `RestoreRuns.ReplayedApplied` | internal/restorer/filerestorer.go:277-294 | A file truncated once and first is its first contents with all writes applied |
| `RestoreRuns.RestoredOnDisk` | internal/restorer/filerestorer.go:103-303 | In every run of any number of writers, once the planned writes to a file are made, in whatever order, the file on disk is the concatenation of its blobs if and only if the declared size is not above the indexed one, or it could not be preallocated |
| `RestoreWorkers.GoConserves` | internal/restorer/filerestorer.go:272-300 | Every step of a write keeps: the number of times a write was made, is being made or waits is the number of times it was planned |
| `RestoreWorkers.RunInv` | internal/restorer/filerestorer.go:145-175 | In every state of every run of any number of download workers, every planned write is in exactly one place, and the files are what the writes made of them |
| `RestoreWorkers.FinishedPerformed` | internal/restorer/filerestorer.go:145-175 | When all workers are done, exactly the writes that are due from all packs have been made |
| `RestoreWorkers.RestoreEnds` | internal/restorer/filerestorer.go:103-303 | A whole restore by any number of workers, in any interleaving: when all are done, every file with blobs is on disk, and is the concatenation of its blobs if and only if the declared size is not above the indexed one, or it could not be preallocated |
| `RestoreWorkers.NeverStuck` | internal/restorer/filerestorer.go:145-175 | Unless all is done some worker can go on, if the next pack can be downloaded |
| `Policies.BuckerMonotone` | restic/snapshot_policy.go:119-143 | Every period number grows with time |
| `Policies.TakesMeaning` | restic/snapshot_policy.go:262-273 | For every list, a counter takes exactly the newest snapshot of each of the n most recent periods that it sees, which are all but a leading period -1 |
| `Policies.TakesExactly` | restic/snapshot_policy.go:262-273 | A counter takes exactly the newest snapshot of each of its n most recent distinct periods, if and only if it is off or the newest snapshot is not in period -1 |
| `Policies.TakesWithinMeaning` | restic/snapshot_policy.go:276-290 | For every list, within a duration exactly the newest snapshot of every period is taken, but for a leading period -1 |
| `Policies.TakesWithinExactly` | restic/snapshot_policy.go:276-290 | Within a duration exactly the newest snapshot of every period is taken, if and only if the newest snapshot is out of reach or not in period -1 |
| `Policies.HasTags` | restic/snapshot.go:196-207 | True if and only if all tags are there, where a leading empty tag stands for having none |
| `Policies.FindLatestTimestamp` | restic/snapshot_policy.go:152-168 | The latest time that is not in the future, or the zero time |
| `Policies.UpdateCounters` | restic/snapshot_policy.go:262-273 | One more snapshot moves all counters on as specified and reports exactly those that take it |
| `Policies.UpdateWithin` | restic/snapshot_policy.go:276-290 | The same for the durations |
| `Policies.Apply` | restic/snapshot_policy.go:240-308 | The loop keeps, removes and gives reasons exactly as specified, with the counters at that point |
| `Policies.ApplyPolicy` | restic/snapshot_policy.go:192-311 | The list is sorted newest first and split in order; an empty policy keeps everything with that reason |
| `Policies.PickedPartitions` | restic/snapshot_policy.go:292-307 | Kept and removed snapshots together are the list |
| `Policies.ReasonsAligned` | restic/snapshot_policy.go:292-304 | The reasons are in the order of the kept snapshots |
| `Policies.KeptMeaning` | restic/snapshot_policy.go:240-308 | For every list, a snapshot is kept if and only if it has wanted tags, is recent, is the newest of a recent period that some counter sees, or the newest of a seen period within some duration |
| `Policies.ExactlyYearSeen` | restic/snapshot_policy.go:207-290 | All counters and durations take exactly the newest snapshots of recent periods if and only if the newest snapshot is not from the year -1, or the policy neither counts years nor reaches it with its yearly duration |
| `Policies.KeptExactly` | restic/snapshot_policy.go:240-308 | Under that condition a snapshot is kept if and only if it has wanted tags, is recent, is the newest of a recent period of some counter, or the newest of its period within some duration |
| `Policies.Idempotent` | restic/snapshot_policy.go:192-311 | Applied to what it kept, with the same or another latest time, a policy keeps all of it, provided that no duration reaches back less far |
| `Policies.StaysExactly` | restic/snapshot_policy.go:192-311 | For a policy that is a single duration, what was kept stays for all lists if and only if the duration reaches back as far as before |
| `Policies.PolicyStable` | restic/snapshot_policy.go:192-311 | With distinct times, sorting and applying the policy again gives the same list, provided that no duration reaches back less far |
| `BlobLrus.TotalBounds` | internal/bloblru/cache.go:32-36 | The byte bound implies the bound on the number of entries, so the entry-count eviction never fires |
| `BlobLrus.Cache.constructor` | internal/bloblru/cache.go:26-43 | An empty cache; it needs room for one entry |
| `BlobLrus.Cache.RemoveOldest` | internal/bloblru/cache.go:92-96 | The oldest entry goes and its bytes are free again |
| `BlobLrus.Cache.Push` | internal/bloblru/cache.go:75-75 | The newest entry is appended, and the oldest goes if there are too many |
| `BlobLrus.Cache.Add` | internal/bloblru/cache.go:47-79 | Free bytes plus the cost of all entries stay the size; no more of the oldest entries go than needed, the loop never meets an empty cache, and a largest evicted buffer is returned, whose key is no longer cached |
| `BlobLrus.Cache.Get` | internal/bloblru/cache.go:81-90 | Found if and only if cached; what is found becomes the most recent, and the bytes stay accounted for |
| `FuseFiles.Open` | internal/fuse/file.go:68-95 | Fails if and only if the size of some blob is unknown; otherwise the cumulative sizes are the prefix sums |
| `FuseFiles.OpenFile.Search` | internal/fuse/file.go:128-131 | The binary search finds the first cumulative size above the offset |
| `FuseFiles.OpenFile.GetBlobAt` | internal/fuse/file.go:97-113 | The blob is what the repository would load, and every cached blob stays right |
| `FuseFiles.BlobInWhole` | internal/fuse/file.go:68-95 | Every blob is in the file where the cumulative sizes say |
| `FuseFiles.Read` | internal/fuse/file.go:115-166 | Reads exactly the bytes from the offset to offset plus size or the end of the file, for every offset including past the end, zero-length blobs and every state of the cache |
| `FuseRuns.SizesServed` | internal/fuse/file.go:68-95 | In every state that a run can reach, the indexed size of a blob is the length of what is loaded for it, for every file that can be opened |
| `FuseRuns.WholeSaved` | internal/fuse/file.go:68-113 | After a flush, a file of saved blobs can be opened, and its bytes are the saved plaintexts one after the other |
| `FuseRuns.ReadAfterRun` | internal/fuse/file.go:68-166 | After any run of any number of callers and a flush, opening and reading a file gives exactly the saved bytes at every offset, whatever the blob cache holds |

## Left out

- AES, Poly1305, scrypt and SHA-256: a lawful key and a hash function are parameters. No two plaintexts with one handle, and no two pack files with one name, come up in a run; a backend that already has another file of that name refuses the upload, and a pack whose hash is the null id, which index files cannot list, counts as refused.
- Backends, HTTP, caching of files, retries: the backend is a map from names to bytes.
- JSON text: index files are the records that are marshalled. The old index format (`decodeOldIndex`) is not modelled.
- Time: whether an index counts as full, and the current time, are parameters. Calendar fields are given functions, monotone in time; time zones do not differ between snapshots.
- Errors in the middle of a run, such as failed uploads, decrypt errors during restore (where the read position is not advanced) and cancelled contexts: the results are for runs that succeed, and the methods say when they fail.
- Repositories.Repository.FlushType: takes each packer out of the list before writing it, while the code empties the list at the end, under the same lock; after a failed flush the lists differ.
- TreeStreams.FindUsedBlobs: a tree that cannot be loaded ends the run with an error, which is not modelled; the choice between the loaders for normal and huge trees is left open.
- Repacking.Repack: download and processing of a pack are one step; saving records the plaintext, and what happens then is the subject of `SaveProtocol.dfy` and `RepackRun.dfy`.
- RepackRuns.LoadAfterRepack: new packs do not get the name of a removed one, as their nonces are fresh; the saves of the repack workers are steps of the run, in any order; which packs to remove is up to the caller.
- Restores.DownloadPack: files whose errors are ignored by the caller are not modelled.
- RestoreRuns.RestoredOnDisk: a file without blobs gets no write; it is created elsewhere.
- RestoreWorkers.RestoreEnds: likewise for files without blobs; a download that fails ends the run, which is not modelled.
- Locks.SafeExactly: removal of stale locks is not part of the protocol.
- Filters.Match: filepath.Match is an arbitrary function of a component pattern and a component, which answers or reports a malformed pattern; paths are lists of components, so splitting strings is not modelled.
- BlobLrus.Cache.Add: buffers are values with a capacity; that two keys might share one buffer is not modelled.
- FuseFiles.Read: where indexed sizes and blob lengths differ, nothing is said; `FuseRuns.SizesServed` shows that they do not in a repository that was written as modelled.
- Checking, pruning plans, mounting, key management, chunking, id prefixes, statistics and command line: not modelled.
