# Verified models of Minio's storage core

This project models the parts of Minio's server (Go package `cmd`, and the `dsync` lock client it
ships in `vendor/`) whose correctness is hardest to see from the code, and proves what they promise.
`dafny verify dfyconfig.toml` checks everything.

What is modelled, and the main results:

* **Erasure coded files** (`ErasureCode`, `Storage`, `ErasureDecode`, `ErasureCreate`, `ErasureRead`,
  `ErasureHeal`, `ErasureTheorems`). Writing, ranged reading and healing of a file cut into blocks and
  padded shards. Reads give back exactly the bytes written, across block borders, padding and the short
  last block; a read fails exactly if some block it touches has fewer than `dataBlocks` servers left; a
  heal appends exactly the shard file a write would have produced, even beside disks with false shards, and
  it succeeds exactly if every block decodes, for which `dataBlocks` shards of it must be there, and every
  append is accepted.
  A write meets its quorum exactly if complete files and absent disks are together that many, and disks
  may be lost or damaged afterwards in any way the checksums tell (`WriteThenRead`). All this needs disks
  that take no append after one they refused; `HoldsStartIffFailStop` says that it needs just that.
  Reed-Solomon coding and hashing are abstract: a codec is any pair of functions that satisfies the laws
  in `Lawful`, and `MirrorIsLawful` shows that there are such codecs.
* **The namespace lock table** (`LockTable`, `LockProtocol`, `LockSafety`, `LockTheorems`). All
  interleavings of the critical sections of `lock`, `unlock` and `ForceUnlock`. Mutual exclusion,
  reference counts and lock info hold for every path that was not forced while in use; the counters are
  conserved in every run, forced or not. Forcing a path can let a writer in beside another holder exactly if
  some operation there holds the path or can get it (`ForceAdmitsOverlapIff`), which on a path not forced
  before means that it is in use; where nothing was forced it can stop the process exactly then
  (`ForceStopsIff`).
* **Distributed locks** (`LockRpc`, `LockRpcSafety`, `Dsync`, `DsyncSafety`, `DsyncTheorems`,
  `DsyncReleases`, `DsyncUids`, `DsyncTwoWriters`, `DsyncAvailability`). The lock server with its stale lock maintenance, alone
  and as a cluster under the `dsync` client. A granted lock is asked about exactly from its interval after the
  grant on (`GrantedFallsDue`). Quorums exclude each other, and no more servers than that are needed: a reader
  gets by with half of them silent, a writer does not (`GetsLockIff`). Without lost answers every lock that an
  attempt leaves behind has its release on its way (`NothingLeaks`). A lock that stays in the table of the
  server it came from is never purged. The client draws a new uid for every server, so that the server a lock came from
  never knows the uid another server asks about: a probe finds a live lock only where it came from
  (`ProbeVerdict`). `TwoWritersIff` says which clients are safe from maintenance, in every cluster and
  over all runs: those that use one uid per lock and, besides, either ask their own server first or have
  their locks picked only once they are decided. One uid alone is not enough, and without it neither is
  the rest. A held lock with one uid can be lost exactly if a pick of it was found expired already
  (`RobbedIffDoomed`).
* **`format.json`** (`Format`, `FormatLoad`, `FormatSlots`, `FormatHeal`, `FormatInspect`,
  `FormatStore`, `Prepare`). The format check is exact; loading does not depend on the order of the disks
  exactly if no two carry one uuid; what a heal wrote loads again in any order. With a repeated uuid a heal
  of fresh disks loses a disk, and one of corrupted disks places all but gives one of them a new uuid
  (`HealFormatXLFreshDisks`, `HealKeepsUuidsIff`). Which round of the startup loop formats, starts, heals,
  fails or goes on is told from what the disks show (`VerdictExactly`); nodes that start agree on every slot.
* **Multipart uploads** (`PartList`, `BackgroundAppend`, `UploadRuns`, `UploadLeftovers`,
  `UploadReplaced`, `Paging`). Parts may be uploaded again, inputs for the background appender arrive in any
  order, and a completion takes the append file or falls back to assembling the parts; it ends the upload
  unless it is refused or fails. Whatever is delivered, the etags requested are those of the parts uploaded last
  (`DeliversExactly`). A part that is uploaded again can make a later completion deliver other bytes
  exactly if an input is on its way that lists all numbers up to that part, and the part with other bytes
  (`ReplacingSpoilsIff`). Where that does not happen a completion delivers what was requested, exactly if it
  does not take an append file that an earlier completion left behind (`DeliversRequestedIff`,
  `HistoryTells`); without I/O errors that takes a part smaller than the fallback allows
  (`FallbackRefusesOnlySmall`, `RefusedCompletionSpoilsTheNext`).
* **The directory tree of the FS backend** (`BucketTree`) refines a map of keys of which none lies inside
  another one, and every such map is held by exactly one tree.
* **Smaller algorithms**: the edit distance table (`EditDistance`), policy normalisation and the nesting
  check (`BucketPolicy`).

Conventions. Disks, streams and sinks carry functions that say which calls succeed, so that every pattern
of failures is covered. Clocks, uuids, uids and authentication results are parameters. A `sync.RWMutex` is
modelled without Go's preference for waiting writers, which allows more runs than the runtime does.

Where the code and what it says of itself differ, the model follows the code:

* The edit distance is called Damerau-Levenshtein, but pairs that were swapped are not edited again, so it
  is the restricted distance and no metric (`NoTriangle`). The triangle inequality holds up to a factor of
  two, and where no swap shortens the two ways (`Triangle`). `minimum` also cuts values off at the largest
  32 bit integer.
* `erasureHealFile` has a parameter `algo` that it does not use; the checksums come from the server's own
  bit-rot algorithm.
* Absent disks count as successes towards the write quorum (`QuorumIffDurable`, `AbsentDisksMeetQuorum`).
* `dsync` checks that the local server takes part in a lock because maintenance relies on it; as every
  server has a uid of its own for the lock, maintenance does not profit from it.
* A lock per part number is to keep a part from being replaced while it is appended. It covers the input
  that the part's own upload sent, but not inputs of other parts that list it.
* Only the fallback of a multipart completion enforces the minimum part size
  (`FallbackRefusesOnlySmall`).
* A disk whose `format.json` is missing is to be fresh if there is no other data on it. The test is for more
  than one volume, so a disk that lost its meta volume too and has one volume of user data counts as fresh
  (`OneVolumeLooksFresh`, `LostFormatStopsIff`).
* Deleting a path that only has objects below it reports success and deletes nothing
  (`DeleteOfDirectoryDoesNothing`).

## Model

| member | source | states |
|---|---|---|
| `ErasureCode.GetChunkSize` | cmd/erasure-utils.go:166-168 | shards are the shortest that hold a block in `dataBlocks` pieces |
| `ErasureCode.ChunkSizeIsLeast` | cmd/erasure-utils.go:166-168 | `dataBlocks` shards of that size hold the block, one byte less per shard would not |
| `ErasureCode.DataShardsJoined` | cmd/erasure-createfile.go:88-108 | the data shards of a block joined are the block followed by zero padding |
| `ErasureCode.ShardFileChunk` | cmd/erasure-createfile.go:31-84 | chunk `b` of shard file `i` is shard `i` of block `b`, also for the short last block |
| `ErasureCode.MirrorIsLawful` | vendor/github.com/klauspost/reedsolomon/reedsolomon.go:364-389 | the laws assumed of the Reed-Solomon library, among them that it refuses with fewer than `dataBlocks` shards, can be met |
| `Storage.CopyBuffer` | cmd/erasure-utils.go:176-209 | the checksum pass sees the whole file, and succeeds exactly if all its reads do |
| `Storage.IsValidBlock` | cmd/erasure-readfile.go:304-321 | true exactly for a file that can be scanned and carries its recorded checksum |
| `ErasureDecode.DecodeData` | cmd/erasure-readfile.go:324-350 | reconstructs, verifies, and on success leaves one encoding that keeps the given shards |
| `ErasureDecode.DecodeSound` | cmd/erasure-readfile.go:324-350 | verified decoding with `dataBlocks` true shards is true, whatever the other shards were |
| `ErasureDecode.DecodeComplete` | cmd/erasure-readfile.go:324-350 | decoding succeeds on any `dataBlocks` true shards of a block that is not empty |
| `ErasureDecode.DecodedIsOnly` | cmd/erasure-readfile.go:324-350 | decoding takes `dataBlocks` shards and gives the one encoding that all shards at hand belong to |
| `ErasureCreate.AppendFile` | cmd/erasure-createfile.go:111-145 | every disk is sent its shard; the result says whether enough appends, absent disks included, did not fail |
| `ErasureCreate.WriteBlock` | cmd/erasure-createfile.go:42-77 | one block read and sent, the empty stream creating empty files |
| `ErasureCreate.ErasureCreateFile` | cmd/erasure-createfile.go:31-84 | no error exactly if the stream ends cleanly and every append meets the quorum; then each disk took its shards and has their checksum |
| `ErasureCreate.SendsAreShardFile` | cmd/erasure-createfile.go:31-84 | the shards sent to a disk make up its shard file |
| `ErasureRead.IsSuccessDecodeBlocks` | cmd/erasure-readfile.go:31-48 | true exactly if at least `dataBlocks` shards are there |
| `ErasureRead.IsSuccessDataBlocks` | cmd/erasure-readfile.go:52-66 | true exactly if all data shards are there |
| `ErasureRead.GetReadDisks` | cmd/erasure-readfile.go:69-111 | picks the disks from the index on up to the one that completes `dataBlocks`; succeeds exactly if chunks are still missing and enough disks are alive, and gives the sanity error exactly if none is missing |
| `ErasureRead.ParallelRead` | cmd/erasure-readfile.go:114-154 | each picked disk is read and kept, or dropped; nothing else changes |
| `ErasureRead.ReadBlock` | cmd/erasure-readfile.go:223-255 | the selection loop ends; it fails exactly if fewer than `dataBlocks` disks serve the block, and drops exactly the disks tried in vain |
| `ErasureRead.GetDataBlockLen` | cmd/erasure-utils.go:88-95 | the length of the joined data blocks |
| `ErasureRead.WriteDataBlocks` | cmd/erasure-utils.go:99-160 | writes exactly the window asked for of the joined data blocks, or a prefix of it on a sink error; refuses negative arguments and short data |
| `ErasureRead.ReadRange` | cmd/erasure-readfile.go:178-300 | the block loop sends the range's bytes in order |
| `ErasureRead.ErasureReadFile` | cmd/erasure-readfile.go:161-300 | the sink always gets a prefix of the range and all of it without an error; an error exactly if some block of the range cannot be read, and then only a quorum error |
| `ErasureRead.EnoughDisksSuffice` | cmd/erasure-readfile.go:223-255 | disks that serve every block are not dropped, so `dataBlocks` of them keep the range readable |
| `ErasureHeal.HealBlock` | cmd/erasure-healfile.go:41-70 | heals one block exactly if the shards read decode, which takes `dataBlocks` of them, and every outdated disk accepts its append; each then took its shard of the decoded block, which is the true one if enough shards are, and if none is false decoding is certain |
| `ErasureHeal.ErasureHealFile` | cmd/erasure-healfile.go:22-84 | succeeds exactly if every block decodes and every outdated disk accepts one append per block; then `dataBlocks` latest disks gave a shard of every block, every outdated disk took one append per block, as much as its shard file has bytes, and the checksum is that of what was appended; with `dataBlocks` true latest disks this is its shard file; if no disk is false and all accept, success is certain |
| `ErasureTheorems.CompleteIff` | cmd/erasure-createfile.go:111-145 | a fresh disk ends up with its whole shard file exactly if it took every append |
| `ErasureTheorems.WrittenIsFaithful` | cmd/erasure-createfile.go:31-84 | files that still carry their checksum, whatever happened to the disks, are prefixes of true shard files |
| `ErasureTheorems.GoodRangeReadable` | cmd/erasure-readfile.go:161-300 | `dataBlocks` complete and intact files make any range readable |
| `ErasureTheorems.QuorumIffDurable` | cmd/erasure-createfile.go:111-145 | a write to fail-stop disks meets its quorum exactly if the complete files it leaves and the absent disks are together that many; for an empty stream, of which every file is complete, only if |
| `ErasureTheorems.AbsentDisksMeetQuorum` | cmd/erasure-createfile.go:115-135 | as many absent disks as the quorum make every write succeed, whatever the others do; fewer do not, if the others refuse |
| `ErasureTheorems.HoldsStartIffFailStop` | cmd/erasure-createfile.go:115-135 | the file of a disk is a start of its shard file, for every stream of `n` appends, exactly if the disk takes none of them after one it refused |
| `ErasureTheorems.WriteThenRead` | cmd/erasure-readfile.go:161-300 | write, any damage the checksums tell, read: a start of the range is read, all of it without an error, and there is none if `dataBlocks` complete files were spared |
| `LockTable.NsLockMap.StatusNoneToBlocked` | cmd/lock-instrument.go:165-179 | records a waiting operation and counts it |
| `LockTable.NsLockMap.StatusBlockedToRunning` | cmd/lock-instrument.go:112-146 | turns a waiting operation into a running one, or says which of four conditions fails |
| `LockTable.NsLockMap.DeleteLockInfoEntryForOps` | cmd/lock-instrument.go:206-225 | removes one operation and counts it out by its status |
| `LockTable.NsLockMap.DeleteLockInfoEntryForVolumePath` | cmd/lock-instrument.go:183-201 | the walk over a path's operations takes exactly their counts out of the totals |
| `LockTable.NsLockMap.LockEnter` | cmd/namespace-lock.go:105-135 | finds or makes the entry, takes a reference, records the operation |
| `LockTable.NsLockMap.Unlock` | cmd/namespace-lock.go:152-190 | releases the mutex, drops the reference and, with the last one, the entry |
| `LockTable.NsLockMap.ForceUnlock` | cmd/namespace-lock.go:222-255 | forgets the path and its lock info |
| `LockProtocol.AskAccounted` | cmd/lock-instrument.go:165-179 | asking for a lock keeps keys and counters in step |
| `LockProtocol.ConfirmAccounted` | cmd/lock-instrument.go:112-146 | so does getting it |
| `LockProtocol.LeaveAccounted` | cmd/namespace-lock.go:152-190 | so does releasing it |
| `LockProtocol.ForceAccounted` | cmd/namespace-lock.go:222-255 | so does a forced removal |
| `LockSafety.StepKeeps` | cmd/namespace-lock.go:105-190 | every critical section keeps the whole invariant, and none stops the process on a path that is not tainted |
| `LockTheorems.MutualExclusion` | cmd/namespace-lock.go:105-190 | in every run, two operations on a path that was not forced share one lock object, and hold it together only as readers |
| `LockTheorems.EntryCountsOperations` | cmd/namespace-lock.go:105-190 | the entry is there exactly while operations are, its reference count is their number, its lock info describes them |
| `LockTheorems.WaitingCanGet` | cmd/namespace-lock.go:137-149 | an operation waiting for a path that nobody holds can have it |
| `LockTheorems.ConfirmSucceeds` | cmd/lock-instrument.go:112-146 | marking an operation running never fails on such a path |
| `LockTheorems.IdleIsEmpty` | cmd/namespace-lock.go:152-190 | with nothing in flight the table is empty and all counters are zero, also after forced removals |
| `LockTheorems.CountersConserved` | cmd/lock-stat.go:27-49 | in every run lock map and lock info have the same keys, each path's counters count its lock info, and the totals count all of it |
| `LockTheorems.CountersCountOperations` | cmd/lock-instrument.go:112-225 | in runs without forced removals the totals are the numbers of waiting, running and all operations |
| `LockTheorems.UnforcedIsSafe` | cmd/namespace-lock.go:105-190 | without forced removals every path is in order and no unlock stops the process |
| `LockTheorems.ForceAdmitsOverlapIff` | cmd/namespace-lock.go:222-255 | from every reachable state, forcing a path can lead to a writer beside another holder exactly if an operation at the path holds it or can get it |
| `LockTheorems.InUseIsLive` | cmd/namespace-lock.go:105-135 | on a path not forced while in use there is such an operation exactly if there is any |
| `LockTheorems.ForceStopsIff` | cmd/namespace-lock.go:152-190 | where nothing was forced while in use, forcing a path can lead to an unlock that stops the process exactly if the path is in use |
| `LockRpc.LockServer.Lock` | cmd/lock-rpc-server.go:134-155 | grants exactly if the name is free, and records the writer; from then on it is due exactly once the interval has gone by since the grant |
| `LockRpc.LockServer.Unlock` | cmd/lock-rpc-server.go:158-175 | removes the writer with that uid, or says why not |
| `LockRpc.LockServer.RLock` | cmd/lock-rpc-server.go:178-201 | grants exactly if there is no writer, and adds the reader, due in the same way |
| `LockRpc.LockServer.RUnlock` | cmd/lock-rpc-server.go:204-221 | removes one reader with that uid, or says why not |
| `LockRpc.LockServer.ForceUnlock` | cmd/lock-rpc-server.go:224-238 | clears the name; refuses a uid |
| `LockRpc.LockServer.Expired` | cmd/lock-rpc-server.go:241-261 | true exactly if no entry of the name has the uid |
| `LockRpc.LockServer.RemoveEntry` | cmd/lock-rpc-server-common.go:41-58 | splices the first entry with the uid out, dropping the name with its last entry |
| `LockRpc.LockServer.RemoveEntryIfExists` | cmd/lock-rpc-server-common.go:25-37 | the purge: the same, for a name that may be gone |
| `LockRpc.LockServer.GetLongLivedLocks` | cmd/lock-rpc-server-common.go:62-74 | picks exactly the locks that are due, and stamps exactly these |
| `LockRpcSafety.StampedIsNotDue` | cmd/lock-rpc-server-common.go:60-74 | a lock that was picked is not due again before the interval is over |
| `LockRpcSafety.AlwaysSafe` | cmd/lock-rpc-server.go:134-238 | after every history each entry is one writer or readers only |
| `LockRpcSafety.HistoryAccounts` | cmd/lock-rpc-server.go:134-238 | after every history the lock map holds, for each name and uid, grants less releases, clears and purges as told by the answers |
| `LockRpcSafety.RemoveTakesOne` | cmd/lock-rpc-server-common.go:41-58 | a removal takes out one lock of one name and uid and nothing else |
| `LockRpcSafety.ReleasedWasHeld` | cmd/lock-rpc-server.go:158-221 | a release without an error gives back a lock that was granted and is not released yet |
| `LockRpcSafety.ReleaseExactly` | cmd/lock-rpc-server.go:158-221 | after every history a release succeeds exactly if a lock of its kind and uid is held, and each error says what is there instead |
| `LockRpcSafety.EntryWasGranted` | cmd/lock-rpc-server.go:134-201 | after every history each entry was granted at its timestamp, and was not checked before that |
| `LockRpcSafety.AskedIsOld` | cmd/lock-rpc-server-common.go:60-74 | a maintenance pass asks about no lock that was granted less than its interval ago |
| `LockRpcSafety.GrantedFallsDue` | cmd/lock-rpc-server.go:134-201 | a granted lock that is not taken away or stamped since is asked about by a pass exactly if the interval has gone by since the grant |
| `DsyncSafety.StepKeeps` | vendor/github.com/minio/dsync/drwmutex.go:144-260 | every handler, decision and maintenance step keeps the cluster invariant |
| `DsyncTheorems.QuorumExclusion` | vendor/github.com/minio/dsync/drwmutex.go:263-277 | in every run two clients that hold a name, and lost no lock to a purge or forced release, are both readers |
| `DsyncTheorems.QuorumsMeet` | vendor/github.com/minio/dsync/dsync.go:39-66 | a quorum is the own server and exactly half of the servers or more, for a writer more than half; a write quorum meets every quorum because the number of servers is even |
| `DsyncTheorems.DecideExactly` | vendor/github.com/minio/dsync/drwmutex.go:232-277 | in every reachable state a decided attempt holds exactly if its own server and half of the servers, for a writer more than half, granted it; otherwise it is over and releases all it was granted |
| `DsyncTheorems.HoldersHaveQuorum` | vendor/github.com/minio/dsync/drwmutex.go:232-277 | in every run who holds a lock was granted it by that many |
| `DsyncAvailability.GetsLockIff` | vendor/github.com/minio/dsync/drwmutex.go:263-277 | from every reachable state an attempt that only some servers grant can get the lock exactly if its own server is among them and they are half, for a writer more than half: half of the servers silent stop a writer and no reader |
| `DsyncReleases.NothingLeaks` | vendor/github.com/minio/dsync/drwmutex.go:236-258 | in every run in which no answer is lost, a lock of an attempt that is over has its release on its way, late grants included, and delivering it takes the lock away |
| `DsyncReleases.LostAnswerLeaks` | vendor/github.com/minio/dsync/drwmutex.go:144-181 | a lost answer leaves a lock without a release, in every cluster and for every name |
| `DsyncTheorems.LiveLockIsNotPurged` | cmd/lock-rpc-server.go:277-311 | a lock that stays in the table of its server of origin is never found expired and its purge does nothing |
| `DsyncTheorems.PurgeTakesItsUid` | cmd/lock-rpc-server-common.go:25-37 | a purge takes out at most one lock, with the uid it was picked for |
| `DsyncUids.RobbedIffDoomed` | cmd/lock-rpc-server.go:277-311 | from every reachable state, a lock held under one uid can be lost to maintenance exactly if a pick of it was found expired already |
| `DsyncUids.HeldIsNeverRobbed` | cmd/lock-rpc-server.go:277-311 | if attempts use one uid each, and ask their own server first or are decided before they are picked, maintenance never takes a lock from a holder, in every run |
| `DsyncUids.ProbeVerdict` | vendor/github.com/minio/dsync/drwmutex.go:149-165 | with a uid per server, a probe of a held lock says expired exactly for the servers other than the client's own |
| `DsyncTwoWriters.TwoWritersIff` | cmd/lock-rpc-server.go:277-311 | in every cluster, a run without forced releases leads to two writers of one name exactly if attempts do not use one uid each, or neither ask their own server first nor are decided before they are picked |
| `Format.FindDiskIndex` | cmd/format-config-v1.go:327-334 | the first position of a uuid, or -1 |
| `Format.CheckFormatXLValues` | cmd/format-config-v1.go:771-791 | passes exactly formats of the right versions, type and number of disks, and says which of the two is wrong with one that is not |
| `Format.CheckJBODConsistency` | cmd/format-config-v1.go:304-324 | passes exactly formats with one list of disks |
| `Format.IsSavedUUIDInOrder` | cmd/format-config-v1.go:248-277 | true exactly if the uuid is in all lists at one position |
| `Format.CheckDisksConsistency` | cmd/format-config-v1.go:280-301 | passes exactly if that holds of every uuid that is not empty |
| `Format.CheckFormatXL` | cmd/format-config-v1.go:794-802 | passes exactly the consistent formats: supported ones with one list, of the right length, that lists every disk |
| `Format.ReorderDisks` | cmd/format-config-v1.go:337-359 | each slot gets the last disk that names it; fails exactly if a uuid is not listed |
| `Format.PlacingFailsIff` | cmd/format-config-v1.go:337-359 | after a passing check placing fails exactly if a formatted disk has an empty uuid that is not listed |
| `Format.EachInItsSlot` | cmd/format-config-v1.go:337-359 | with distinct uuids no formatted disk is lost: each is in the slot its uuid names |
| `FormatLoad.LoadFormatXL` | cmd/format-config-v1.go:721-769 | succeeds exactly for tolerable errors within quorum and consistent, recognised formats; then gives each slot its disk |
| `FormatLoad.LoadableExactly` | cmd/format-config-v1.go:721-769 | disks load exactly if all are formatted, fresh, damaged or offline, none of the three faults has more disks than the quorum leaves, some disk is there, and the formats agree |
| `FormatLoad.QuorumErrorExactly` | cmd/format-config-v1.go:752-762 | which fault is named if several are too frequent |
| `FormatLoad.OrderIndependent` | cmd/format-config-v1.go:721-769 | every order of the disks loads, with the same slots, if uuids are distinct |
| `FormatLoad.RepeatedUuidMatters` | cmd/format-config-v1.go:344-357 | if two disks carry one uuid some order puts the other one into the slot |
| `FormatLoad.OrderIndependentIff` | cmd/format-config-v1.go:721-769 | the order of the disks does not matter exactly if uuids are distinct |
| `FormatHeal.LoadForHeal` | cmd/format-config-v1.go:424-443 | all formats, or the reason of the first disk that is neither formatted nor to be healed; an offline disk is no error |
| `FormatHeal.LostFormatStopsIff` | cmd/format-config-v1.go:362-381 | a disk without format and user volumes never stops a heal of fresh disks; one with user volumes stops it exactly if its meta volume is there or they are more than one |
| `FormatHeal.OneVolumeLooksFresh` | cmd/format-config-v1.go:362-381 | a disk that lost its meta volume and has one user volume counts as fresh |
| `FormatHeal.FillUuids` | cmd/format-config-v1.go:481-486 | empty slots get new uuids, the others keep theirs |
| `FormatHeal.FillMissing` | cmd/format-config-v1.go:504-521 | fresh disks go to empty slots; if each placed disk has one slot, then in the end every disk has one |
| `FormatInspect.ReorderDisksByInspection` | cmd/format-config-v1.go:555-606 | disks are put where their metadata says, or the first conflict or error is returned; a slot behind the last disk stops the process |
| `FormatInspect.InspectedPlaces` | cmd/format-config-v1.go:555-606 | inspection keeps earlier slots, uses the named ones, and gives no disk two |
| `FormatInspect.InspectExactly` | cmd/format-config-v1.go:560-592 | inspection finds the metadata of the first entry of the first volume that is not the meta bucket, if any |
| `FormatInspect.SplitDisksByUse` | cmd/format-config-v1.go:535-551 | splits the disks by whether they have a slot, in order |
| `FormatInspect.AssignRest` | cmd/format-config-v1.go:688-694 | unused disks fill the empty slots and every disk ends up in one |
| `FormatStore.Storage.SaveFormatXL` | cmd/format-config-v1.go:805-853 | writes each slot's format to its disk; no error exactly if all disks can be written |
| `FormatStore.Storage.InitFormatXL` | cmd/format-config-v1.go:856-896 | writes new formats with new uuids to all disks |
| `FormatStore.Storage.HealFormatXLFreshDisks` | cmd/format-config-v1.go:420-532 | early returns change nothing; otherwise slots are kept, new uuids fill the empty ones, all slots are written, and every disk has one exactly if uuids are distinct |
| `FormatStore.Storage.HealFormatXLCorruptedDisks` | cmd/format-config-v1.go:609-717 | the same, disks with surviving objects are in the slots their metadata names, and every disk gets a slot whatever the uuids |
| `FormatStore.HealedIsWell` | cmd/format-config-v1.go:420-717 | after a heal that gave every disk a slot all formats carry one list of distinct uuids, and its i-th belongs to slot i |
| `FormatStore.HealedKeepsFormatted` | cmd/format-config-v1.go:420-717 | with distinct uuids, disks that had a format keep uuid and slot |
| `FormatStore.HealKeepsUuidsIff` | cmd/format-config-v1.go:609-717 | a heal that placed all disks, as one of corrupted disks always does, leaves the formatted ones their uuids exactly if these are distinct |
| `FormatStore.HealThenLoad` | cmd/format-config-v1.go:420-769 | healed disks load in any order, each in the slot it was healed into |
| `FormatStore.InitThenLoad` | cmd/format-config-v1.go:721-896 | freshly formatted disks load in any order, each where it was given |
| `Prepare.PrepForInitXL` | cmd/prepare-storage.go:122-179 | the action, told from what the disks show: each of the eight is taken exactly under its own condition; only a first node formats, and only if every disk is unformatted |
| `Prepare.VerdictExactly` | cmd/prepare-storage.go:193-274 | a round formats exactly if the node is first and all disks are unformatted, starts or heals exactly if most disks are formatted, the formats are consistent and no disk refused the node, the others being offline or not; it fails or goes on exactly in the cases spelled out |
| `Prepare.GenericIsConsistent` | cmd/format-config-v1.go:200-243 | once most disks are formatted, the generic check comes down to consistent formats |
| `Prepare.GenericFormatCheckXL` | cmd/format-config-v1.go:200-243 | passes exactly if the disks that are neither online nor corrupted, and the corrupted ones, are few enough each, and the formats are consistent |
| `Prepare.RetryFormattingXLDisks` | cmd/prepare-storage.go:193-274 | the verdict is that of the first round that settles; it is to format exactly if the node is first and that round found all disks unformatted |
| `Prepare.SettledSawMajority` | cmd/prepare-storage.go:170-176 | a node starts or heals only after reading the formats of a majority |
| `Prepare.SameList` | cmd/prepare-storage.go:122-179 | two such nodes go by one list of disks |
| `Prepare.NodesAgree` | cmd/prepare-storage.go:122-179 | and give every disk that both read the same slot |
| `PartList.FsMeta.ObjectPartIndex` | cmd/fs-v1-metadata.go:94-102 | the first position of a part number, or -1 |
| `PartList.FsMeta.AddObjectPart` | cmd/fs-v1-metadata.go:105-126 | the list stays in order; the new part stands for its number and the others are unchanged |
| `PartList.IsPartsSame` | cmd/fs-v1-metadata.go:245-258 | true exactly for the same numbers and etags in the same order |
| `PartList.Assemble` | cmd/fs-v1-multipart.go:674-731 | the fallback: succeeds exactly if each requested number was uploaded with the requested etag, is at least the minimum size unless last, and has its file, and then has the bytes in order; otherwise the first part that fails this, with the error that says how |
| `PartList.RefusalExactly` | cmd/fs-v1-multipart.go:681-714 | what each error of the fallback means |
| `BackgroundAppend.BackgroundAppender.HandleInput` | cmd/fs-v1-background-append.go:149-179 | appends while the next part is there; a failure starts over; all appended exactly if the lists agree |
| `BackgroundAppend.BackgroundAppender.Append` | cmd/fs-v1-background-append.go:62-94 | starts an appender if there is none, on the append file as it is |
| `BackgroundAppend.BackgroundAppender.Complete` | cmd/fs-v1-background-append.go:97-122 | ends the appender after a last input and leaves its file |
| `BackgroundAppend.BackgroundAppender.Abort` | cmd/fs-v1-background-append.go:125-137 | ends the appender and removes its file |
| `BackgroundAppend.WorkHolds` | cmd/fs-v1-background-append.go:149-179 | whatever fails, and while no part it gets to was replaced, the file is its base and then the recorded parts numbered from one |
| `UploadRuns.AlwaysInOrder` | cmd/fs-v1-background-append.go:140-206 | so in every run in which no part gets other bytes while an input is on its way that lists it and all numbers below |
| `UploadRuns.CompleteIsExact` | cmd/fs-v1-background-append.go:157-167 | in such runs a completion told "all appended" delivers the base and then exactly the parts as uploaded last |
| `UploadLeftovers.HistoryTells` | cmd/fs-v1-background-append.go:188-191 | in every run a file is left behind exactly if a completion ended an appender that had one and no part came since; an appender has something in front of its parts exactly if it started on such a file and did not start over |
| `UploadLeftovers.DeliversRequestedIff` | cmd/fs-v1-multipart.go:655-744 | a completion delivers the bytes requested exactly if it does not take such a file |
| `UploadLeftovers.FirstCompletionIsRight` | cmd/fs-v1-multipart.go:655-744 | so the first completion that asks the appender delivers the bytes requested |
| `UploadRuns.FallbackRefusesOnlySmall` | cmd/fs-v1-multipart.go:681-701 | of a request for all parts the fallback refuses only a small part that is not the last |
| `UploadRuns.DeliversExactly` | cmd/fs-v1-multipart.go:655-731 | in every run a completion delivers exactly if nothing fails and all parts are requested and appended, or each part requested is the one uploaded last and large enough unless last; on either path every etag requested is that of the part uploaded last under its number |
| `UploadLeftovers.RefusedCompletionSpoilsTheNext` | cmd/fs-v1-multipart.go:655-744 | for all contents, if part one is below the minimum size, a run in which a refused completion leaves the file behind and the next one delivers part one twice |
| `UploadReplaced.ReplacingSpoilsIff` | cmd/fs-v1-multipart.go:450-478 | from every state a steady run leads to, a part put can make a later completion deliver other bytes exactly if an input on its way lists all numbers up to it and the part with other bytes, part numbers counting from one |
| `UploadReplaced.ReplacedOnTheWay` | cmd/fs-v1-multipart.go:450-478 | the part locks allow that: for all contents, a run that leads to such a state |
| `Paging.ListMultipartUploadIDs` | cmd/fs-v1-multipart.go:59-84 | the page behind the marker, and whether it is the last; it is full unless it is; nothing is behind a marker that is not there |
| `Paging.AllUploadsListed` | cmd/object-api-multipart-common.go:207-230 | following the markers lists every upload once, in order, in finitely many pages |
| `Paging.ListObjectParts` | cmd/fs-v1-multipart.go:507-541 | the page behind the marker, full if more follow, and the next marker |
| `Paging.AllPartsListed` | cmd/fs-v1-multipart.go:507-541 | following the markers lists every part once, in order, in finitely many pages |
| `BucketTree.Bucket.MkdirAll` | cmd/fs-v1-helpers.go:314-317 | makes exactly the missing directories, or nothing if a file is on the way |
| `BucketTree.Bucket.RenameFile` | cmd/fs-v1-helpers.go:314-322 | succeeds exactly if the key lies neither inside nor around another one, and changes nothing otherwise |
| `BucketTree.Bucket.DeleteFile` | cmd/fs-v1-helpers.go:326-373 | removes the file and exactly the directories this leaves empty, never the bucket |
| `BucketTree.Bucket.PutObject` | cmd/fs-v1.go:653-656 | refines the put of the key map |
| `BucketTree.Bucket.DeleteObject` | cmd/fs-v1.go:678-713 | refines the delete of the key map |
| `BucketTree.Bucket.DeleteBucket` | cmd/fs-v1.go:345-369 | succeeds exactly if no keys are left |
| `BucketTree.TreeIsItsKeys` | cmd/fs-v1-helpers.go:326-373 | the tree is determined by the keys it holds |
| `BucketTree.HeldIffPrefixFree` | cmd/fs-v1-helpers.go:314-322 | keys can be held by a tree exactly if none lies inside another one |
| `BucketTree.RunsStayPrefixFree` | cmd/fs-v1.go:653-713 | over every run no key lies inside another one |
| `BucketTree.DeleteUndoesPut` | cmd/fs-v1.go:653-713 | deleting a key that was just put for the first time undoes the put |
| `BucketTree.DeleteOfDirectoryDoesNothing` | cmd/fs-v1-helpers.go:350-353 | deleting a path that only has keys below it succeeds and deletes nothing |
| `EditDistance.Minimum` | cmd/damerau-levenshtein.go:24-32 | the least of the values and the largest 32 bit integer |
| `EditDistance.DamerauLevenshteinDistance` | cmd/damerau-levenshtein.go:36-66 | the table's result is the distance, cut off at the largest 32 bit integer unless a string is empty |
| `EditDistance.DistanceIsLeast` | cmd/damerau-levenshtein.go:36-66 | the distance is the least cost of a restricted edit script |
| `EditDistance.Symmetric` | cmd/damerau-levenshtein.go:36-66 | it is symmetric |
| `EditDistance.ZeroIffEqual` | cmd/damerau-levenshtein.go:36-66 | it is zero exactly for equal strings |
| `EditDistance.Bounds` | cmd/damerau-levenshtein.go:36-66 | it lies between the difference of the lengths and the longer length |
| `EditDistance.SwapsSave` | cmd/damerau-levenshtein.go:60-62 | it is at most the distance without swaps, and at least half of it |
| `EditDistance.SwapFreeTriangle` | cmd/damerau-levenshtein.go:52-58 | without swaps the triangle inequality holds |
| `EditDistance.Triangle` | cmd/damerau-levenshtein.go:36-66 | the distance is at most the sum of the two ways without swaps; so the triangle inequality holds up to a factor of two, and as it stands where no swap shortens the two ways |
| `EditDistance.NoTriangle` | cmd/damerau-levenshtein.go:60-62 | an input at which it fails, with a swap on one side only |
| `BucketPolicy.Normalize` | cmd/bucket-policy-parser.go:325-340 | denying statements first, then the others, each in their order |
| `BucketPolicy.EvalStatements` | cmd/bucket-policy-handlers.go:36-49 | allows exactly if the first statement that matches allows |
| `BucketPolicy.DenyOverrides` | cmd/bucket-policy-parser.go:325-340 | a normalised policy allows a request exactly if some Allow matches and no Deny does |
| `BucketPolicy.NormalIsNormal` | cmd/bucket-policy-parser.go:325-340 | normalising again changes nothing |
| `BucketPolicy.ScanForNesting` | cmd/bucket-policy-parser.go:262-273 | the scan of a sorted list is exact |
| `BucketPolicy.CheckBucketPolicyResources` | cmd/bucket-policy-parser.go:227-278 | malformed exactly if a bucket action is not on the bucket itself, or another action not on it or something in it; otherwise nesting exactly if of two different resources with actions of the second kind one, its star trimmed, is a prefix of the other |
| `BucketPolicy.StarsOverlapIff` | cmd/bucket-policy-parser.go:254-274 | resources that end in a star count as nested exactly if something is covered by both |
| `BucketPolicy.HeadTells` | cmd/bucket-policy-parser.go:244-246 | the part before the first slash is the bucket exactly for the bucket and what is in it |

## Left out

- Reed-Solomon arithmetic, hash functions, byte pools and buffer reuse: the laws of `Lawful` and an abstract digest stand for them; two files with one checksum are excluded by `Faithful`.
- Zero length reads and heals of empty files: reads of no bytes are covered, but what the codec library does with empty shards is not.
- ErasureCreate.AppendFile: the write quorum counts the appends that did not fail; which error is then reported among several is not modelled, nor are partial writes of a failed append.
- ErasureRead.ErasureReadFile: offsets and lengths are unbounded integers, so the wrap-around of `offset+length` in 64 bits is not modelled.
- Prepare.RetryFormattingXLDisks: the timer, its messages and the stop signal are left out; a run that is stopped is one that ran out of rounds.
- FormatStore.Storage.HealFormatXLFreshDisks: making the meta volume is not modelled, and neither is a crash between the writes of two formats.
- LockTable.NsLockMap.ForceUnlock: in distributed mode the source also asks all lock servers to clear the name; that is the step `ForceAt` of `Dsync`.
- FormatStore.Storage.SaveFormatXL: the temporary file and its renaming are one write.
- FormatStore.Storage.InitFormatXL: making the meta volumes is not modelled.
- FormatStore.Storage.HealFormatXLCorruptedDisks: making the meta volumes is not modelled, and neither is a crash between the writes of two formats.
- A `format.json` of type `xl` without its `xl` section: the source dereferences nil there.
- DsyncSafety.StepKeeps: time is not modelled, so a lock may be picked by maintenance at any age and an attempt may be decided at any moment; that locks are older than the time an attempt takes is the policy `aged` of `DsyncUids`. Server restarts are left out.
- LockTable.NsLockMap.LockEnter: the mutex between the two halves of `lock` is acquired by a step of `LockProtocol`, in any order the waiting operations can; the distributed mutex is modelled in `Dsync`.
- BackgroundAppend.BackgroundAppender.HandleInput: removing the append file after a failure always succeeds; the timeout of an idle appender is a step of `UploadRuns`, not of the class.
- UploadRuns.AlwaysInOrder: inputs still on their way when a completion ends the appender are dropped; the source may take them before it notices. Errors after the object is in its place, such as a failing write of its `fs.json`, are left out, and so are requests without parts, which the handler refuses.
- BucketTree.Bucket.PutObject: temporary files, checksums of the body, `fs.json` side files, file locks and I/O errors are left out; keys are normalised paths.
- BucketPolicy.EvalStatements: whether a statement matches a request is an arbitrary predicate; wildcard and condition matching are left out.
- EditDistance.DamerauLevenshteinDistance: integers are unbounded, so an overflow of Go's `int` is not modelled.
- Uploads metadata (`AddUploadID`, `RemoveUploadID`), tree walks and list pools: would add easy members or are not needed by the results above.
- HTTP handlers, signatures, encodings, notification back ends, configuration: plumbing.
