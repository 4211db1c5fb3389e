# Verified models of a self-hosting toolkit

The repository is a Rust workspace: a container registry (`resin`), a service bootstrapper (`blueprint`),
a log writer, and the small languages and codecs around them. This project models the parts of it with the
most state and the most ways to fail, and proves what they keep.

## What is modelled

**The registry's blob files** (`Disks`, `Sessions`, `UploadProtocol`, `UploadSafety`, `UploadTheorems`,
`UploadLifetimes`, `MediaTypes`). The disk maps file locations to inodes and inodes to bytes, so that rename, append, truncate,
delete and hard link mean what they mean on a POSIX file system. `UploadProtocol` is a transition system: a state
holds the disk, the uploader's table, its poisoned flag and every call in flight; an event is one step of one call
with at most one disk operation. Chunk writes take the hasher under the mutex, append without it, and put it back
under it; they can fail or be dropped at any point, and a dropped call's queued append can still run later.
Starts, completes, aborts, purges, mounts, saves and deletes interleave with them freely, over any number of
repositories. SHA-256 is an arbitrary function and a hasher is the bytes it has absorbed.

**The same operations as the program writes them** (`Files`, `BlobCommits`, `BlobUploader`, `BlobRuns`,
`BlobStore`, `BlobMounter`): classes with loops, early returns and clean-up on leaving scope, over a file system
whose every operation may fail. Each method that changes something names the protocol's events it consists of.

**Repositories, names, digests and paths** (`Texts`, `Names`, `Repositories`, `Digests`, `BlobPaths`): why
different resources, local or cached from an upstream registry, are different files.

**Bootstrap** (`Modes`, `Worlds`, `Bootstrap`, `Convergence`, `Executor`, `BootstrapRuns`): discovery, planning
and execution over a machine with groups, users, members and folders; convergence over any sequence of rounds;
and the journaling executor with its reverse rollback.

**The log** (`LogRotation`, `LogWriter`): a queue that becomes a file when it can be opened, a buffered writer
whose writes may be cut short, and a chain of rotated files.

**Smaller languages** (`Tags`, `FoldPaths`, `Releases`, `ReleasePayloads`, `ImageReferences`): tag pages over
changing lists, repository path folding, release conflicts and differences, metadata appended to a binary, and
image references.

## Findings

What the source does not do, each with its exact condition and a concrete case:

- A save whose temporary file was left behind by an earlier one stores the leftover in front of the stream,
  because the file has a fixed name, is opened for appending, and only the stream is hashed. The stored blob
  matches exactly when the leftover does not change the hash (`BlobStore.LeftoverDecidesSave`,
  `BlobStore.LeftoverSpoilsSave`).
- The empty blob cannot be uploaded: the temporary file comes into being with the first byte, so a sealed upload
  can be published exactly when its chunk calls were given a byte at all
  (`UploadTheorems.SealedCanBePublishedExactlyWhen`, `UploadTheorems.EmptyUploadCannotBePublished`,
  `BlobUploader.FileBlobUploader.Complete`).
- A complete that finds the hasher out panics with the mutex held, which ends the uploader for every repository
  (`UploadTheorems.PoisonedForever`). That is so while a chunk is being written, and for good after a chunk call
  failed or was dropped (`UploadTheorems.FailedWriteDooms`, `UploadTheorems.CompleteAfterFailedWritePanics`,
  `UploadLifetimes.FailedWritePoisons`).
- An abort deletes the upload's temporary file, and an append that is still in flight creates it again. It can come
  back exactly when a chunk call or an append on the upload is still there
  (`UploadLifetimes.AbortedFileReturnsExactlyWhen`, `UploadLifetimes.AbortedFileComesBack`).
- Media types are not independent: writing one changes another exactly when the two are one file, which only a
  mount makes them (`MediaTypes.WriteReachesExactly`, `MediaTypes.LinksComeFromMounts`,
  `MediaTypes.MountSharesMediaTypes`). Blob content always is.
- Purge takes repository names from the folders directly below the storage root, which are `local` and
  `upstream`, where the local repositories are one level down. A successful purge deletes a stale file exactly
  when its repository happens to be called one of these, and where nothing else fails a purge succeeds exactly
  when the repositories so called have a folder of uploads (`BlobUploader.PurgeLeavesExactly`,
  `BlobUploader.PurgeNeedsExactly`, `BlobUploader.PurgeKeepsForgottenUpload`).
- Two modes, 440 and 700, are never read back as themselves, so a definition that asks for one is planned for
  ever (`Modes.ReadsBack`, `Convergence.UnreadableModesAreSetForEver`); `bract/src/blueprints/bootstrap.rs:216-219` asks
  for 700.
- A managed user that exists while its group does not needs a second round, exactly in the case
  `Convergence.OneRoundIsEnoughExactlyWhen` names (`Convergence.SecondPassIsNeeded`).
- The bootstrap commands have no rollback, so a bootstrap that fails leaves the machine as it was exactly when its
  first step already failed (`BootstrapRuns.FailureLeavesNothingExactlyWhen`,
  `BootstrapRuns.FailedBootstrapLeavesItsFolder`).
- A page size of 0 ends a tag listing with nothing listed and no cursor; every size from 1 lists everything
  (`Tags.PageSizeZeroListsNothing`, `Tags.FixedWalkListsEverything`).

## Model

| member | source | states |
|---|---|---|
| UploadTheorems.StoredBlobsMatchTheirDigest | resin/src/blob_uploader.rs:191-379 | after any interleaving of all operations, with any failures, in which no save meets a leftover temporary file, every stored blob has bytes whose hash is the digest in its path |
| UploadTheorems.HasherIsLinear | resin/src/blob_uploader.rs:223-279 | a live upload's hasher is in its session and in step with the file with nobody writing, or out with exactly one writer, or lost |
| UploadTheorems.DoomedForever | resin/src/blob_uploader.rs:240-315 | a lost hasher never returns in any continuation, and that upload is never published |
| UploadTheorems.FailedWriteDooms | resin/src/blob_uploader.rs:242-266 | a chunk call that fails or is dropped while it has the hasher loses it |
| UploadTheorems.CompleteAfterFailedWritePanics | resin/src/blob_uploader.rs:309-310 | from then on, over any run, a complete of that upload cannot seal it and can only panic, while the session is there |
| UploadTheorems.PoisonedForever | resin/src/blob_uploader.rs:310 | after the panic no step of any call ever takes the mutex again |
| UploadTheorems.StepKeepsContent | resin/src/blob_uploader.rs:242-266 | no append, late append, media type write or handle write ever changes a stored blob; only the steps aimed at a blob do |
| UploadTheorems.RepositoriesAreIndependent | resin/src/blob_mounter.rs:105-124 | over any run, a repository's stored bytes change only by steps aimed at that repository, mounts or not |
| UploadTheorems.CallsAbsorbWhatTheyAreGiven | resin/src/blob_uploader.rs:242-266 | whatever interleaves, what a call in flight has absorbed of its own is the portions its reader gave it since it took the hasher |
| UploadTheorems.PublishedIsWhatWasAcknowledged | resin/src/blob_uploader.rs:268-330 | what a complete publishes is the in-order concatenation of what exactly the chunk calls that returned Ok were given, read off their events, and is not empty |
| UploadTheorems.SealedCanBePublishedExactlyWhen | resin/src/blob_uploader.rs:283-330 | an upload whose digest checks out has a file to rename exactly when its successful calls were given a byte |
| UploadTheorems.EmptyUploadCannotBePublished | resin/src/blob_uploader.rs:283-330 | start, then complete with the right digest of no bytes, finds no file |
| UploadTheorems.AckedAreTheOkBodies | resin/src/blob_uploader.rs:268-279 | over any run, the history of acknowledged bodies is exactly what the successful chunk calls were given |
| UploadTheorems.PutReturnsTheTotal | resin/src/blob_uploader.rs:268-279 | over any run, a successful chunk call returns the total of what all such calls were given, itself included, and the session reports it until another succeeds |
| UploadTheorems.StatusReportsTheTotal | resin/src/blob_uploader.rs:381-391 | at the end of any run, a live upload's offset is the length of everything its successful calls were given |
| UploadTheorems.IdleUploadsAreLeftAlone | resin/src/blob_uploader.rs:166-187 | an upload nobody works on keeps its session and its file through any run of everything else, purges included |
| UploadTheorems.SavesFindNoLeftovers | resin/src/blob_store.rs:193-211 | while clean-up deletes work, no save's temporary file outlives its save, over any run, so one save at a time is all a new save needs |
| UploadLifetimes.StoredUntilDeleted | resin/src/blob_store.rs:333-363 | over any run without a delete of its content file, a stored blob stays, keeps matching its digest, and its bytes keep their hash |
| UploadLifetimes.FileReturnsExactlyWhen | resin/src/blob_uploader.rs:256-264 | some run brings back the temporary file of an upload that is over exactly when a chunk call or an append on it is still in flight |
| UploadLifetimes.AbortedFileReturnsExactlyWhen | resin/src/blob_uploader.rs:335-355 | the same for a file that an abort has just deleted; an upload aborted with its hasher in is rid of it for good |
| UploadLifetimes.AbortedFileComesBack | resin/src/blob_uploader.rs:256-264 | a run from an empty registry in which an append after the abort creates the file again |
| UploadLifetimes.QueuedAppendOutlivesItsCall | resin/src/blob_uploader.rs:256-264 | dropping a call does not stop the append it has queued |
| UploadLifetimes.FailedWritePoisons | resin/src/blob_uploader.rs:242-310 | a run from an empty registry of a start, a chunk call that fails and a complete, after which the mutex is poisoned |
| MediaTypes.WriteReachesExactly | resin/src/blob_paths.rs:82-91 | writing one media type changes another exactly when the two are one file and the text is new |
| MediaTypes.LinksComeFromMounts | resin/src/blob_mounter.rs:114-121 | over any run, two media types are one file only if they were at the start or a mount linked one of them |
| MediaTypes.UntouchedMediaTypesStay | resin/src/blob_paths.rs:78-92 | over any run, a media type changes only by a step on it or a write to a file that is the same one |
| MediaTypes.UnmountedMediaTypesAreIndependent | resin/src/blob_mounter.rs:105-124 | a repository without links to others keeps its media types through any run not aimed at it and not mounting from it |
| MediaTypes.MountSharesMediaTypes | resin/src/blob_mounter.rs:114-121 | one mount and one write that show the sharing |
| UploadTheorems.RunKeeps | resin/src/blob_uploader.rs:141-392 | the invariant behind all of these is kept by every run |
| UploadSafety.OthersKeep | resin/src/blob_uploader.rs:213-281 | a step that differs only at some uploads keeps what is known about all the others |
| UploadSafety.RunAppendKeeps | resin/src/blob_uploader.rs:256-264 | an append without the mutex, whole, cut short or not begun, keeps the invariant against every other call in flight |
| UploadSafety.RunLateKeeps | resin/src/blob_uploader.rs:256-264 | so does an append that runs after its call was dropped |
| UploadSafety.PutAbsorbed | resin/src/blob_uploader.rs:268-279 | the hasher put back has absorbed the acknowledged bytes and this call's body, which is the whole temporary file |
| UploadSafety.SealKeeps | resin/src/blob_uploader.rs:283-315 | taking a session out for commit keeps the invariant |
| UploadSafety.PublishKeeps | resin/src/blob_paths.rs:78-83 | renaming an upload into place keeps the invariant |
| UploadSafety.LinkContentKeeps | resin/src/blob_mounter.rs:109-113 | hard-linking a blob into another repository keeps the invariant |
| Disks.PublishSound | resin/src/blob_paths.rs:78-80 | renaming a private file whose bytes match keeps the disk sound and changes that blob only |
| Disks.WriteHandleSound | file_system/src/lib.rs:583-684 | writing through an open temporary file reaches no stored blob, whatever became of its name |
| Sessions.Insert | resin/src/blob_uploader.rs:197-208 | registering an upload makes the entry on demand and changes no other session |
| Sessions.Remove | resin/src/blob_uploader.rs:293-307 | removing the last upload of a repository removes its entry, and no other session changes |
| BlobUploader.FileBlobUploader.Start | resin/src/blob_uploader.rs:191-211 | Ok is exactly the protocol's start; a failure changes nothing; where nothing fails it is Ok |
| BlobUploader.FileBlobUploader.TakeHasher | resin/src/blob_uploader.rs:223-240 | which of the three errors is returned exactly when, a mismatch telling the total of everything acknowledged and the offset received, and otherwise exactly the protocol's take |
| BlobUploader.FileBlobUploader.AppendBody | resin/src/blob_uploader.rs:242-266 | for every pattern of reads the hasher absorbs and the file gains exactly the body; any failure loses the hasher; no other file changes |
| BlobUploader.FileBlobUploader.PutHasher | resin/src/blob_uploader.rs:268-279 | exactly the protocol's put, with the total as result, or the error for a session that is gone |
| BlobUploader.FileBlobUploader.WriteChunk | resin/src/blob_uploader.rs:213-281 | Ok appends exactly the body and acknowledges it; network and file errors lose the hasher and come from their own causes only; the others change nothing and are returned exactly when, a mismatch telling the total of everything acknowledged; no other session or file changes; the call is a run of the protocol's events |
| BlobUploader.FileBlobUploader.WriteChunkAgain | resin/src/blob_uploader.rs:231-237 | a chunk refused for its offset and sent again at the reported one is acknowledged behind everything before, where nothing fails |
| BlobUploader.FileBlobUploader.Push | resin/src/blob_uploader.rs:191-333 | where nothing fails, start, one chunk and complete store any body that is not empty under its digest, with its media type |
| BlobUploader.FileBlobUploader.SealUpload | resin/src/blob_uploader.rs:283-315 | the locked block of complete, case by case, each error exactly when, with what happens to session and temporary file, as the protocol's seal, discard or panic |
| BlobUploader.FileBlobUploader.CommitUpload | resin/src/blob_uploader.rs:317-330 | the commit of a sealed upload stores what was acknowledged or, with deletes working, leaves none of its three files; it is a run of publish or give-up, media type and delete events |
| BlobUploader.FileBlobUploader.Complete | resin/src/blob_uploader.rs:283-333 | Ok: content and media type are stored, the content is what was acknowledged, not empty, and hashes to the claimed digest; unknown, panicked and mismatch exactly when; where nothing fails, Ok exactly when the hasher is in, the digest matches and a byte was acknowledged; after an error that took the session out the temporary file is gone; nothing else is touched; the call is a run of the protocol's events |
| BlobUploader.FileBlobUploader.Abort | resin/src/blob_uploader.rs:335-355 | the session is gone for good; the file is gone at the return, and can come back exactly when a chunk call or an append on the upload is still in flight; unknown uploads change nothing |
| BlobUploader.FileBlobUploader.Status | resin/src/blob_uploader.rs:381-391 | the length of everything acknowledged |
| BlobUploader.FileBlobUploader.PurgeRepository | resin/src/blob_uploader.rs:166-187 | success leaves the disk without exactly the repository's files whose names read as a UUID that is not live; a failure ends it, without some of them; where nothing fails, success exactly if there is a folder of uploads; the call is a run of purge events |
| BlobUploader.FileBlobUploader.Purge | resin/src/blob_uploader.rs:357-379 | the same over all repositories that the storage root's folders name, and every live upload's file is as it was |
| BlobUploader.PurgeLeavesExactly | resin/src/blob_uploader.rs:166-377 | after a successful purge exactly those files are gone that have a UUID for a name, no upload of which is live, in a repository named like one of the registry's top folders |
| BlobUploader.PurgeNeedsExactly | resin/src/blob_uploader.rs:166-175 | what a purge needs to succeed: the repositories named like the registry's top folders have a folder of uploads |
| BlobUploader.PurgeKeepsForgottenUpload | resin/src/blob_uploader.rs:357-379 | a stale file of repository `app` that every purge leaves |
| BlobCommits.CommitOnce | resin/src/blob_paths.rs:78-111 | with deletes working, content and media type exist and the temporary file does not, or none of the three, under every fault; Ok moves the temporary file's own inode; no other file is touched |
| BlobCommits.BlobCommit.Complete | resin/src/blob_paths.rs:78-92 | the disk after each combination of rename, write and clean-up outcomes |
| BlobCommits.BlobCommit.CleanUp | resin/src/blob_paths.rs:94-100 | deletes in order up to the first failure, and is finished exactly when all three worked |
| BlobCommits.CleanUpOrder | resin/src/blob_paths.rs:94-100 | which of the three files is left after a clean-up that stops half way: never content without its media type |
| BlobCommits.BlobCommit.Drop | resin/src/blob_paths.rs:103-111 | an unfinished commit is undone on leaving scope, a finished one left alone |
| BlobCommits.CommitFramed | resin/src/blob_paths.rs:78-111 | under every fault a commit touches its own three files only, and linked media types of the same digest |
| BlobStore.FileBlobStore.FillBuffer | resin/src/blob_store.rs:164-173 | short reads fill a whole buffer; only the end of the stream leaves it part empty |
| BlobStore.FileBlobStore.HashedReadToTempFile | resin/src/blob_store.rs:148-191 | for every pattern of short reads the whole stream is hashed and appended; an error deletes the file again |
| BlobStore.FileBlobStore.Save | resin/src/blob_store.rs:232-266 | Ok stores the whole stream (behind any leftover) and its media type, and the stream matches the claimed digest; where nothing fails, Ok exactly for a stored or matching blob, and otherwise a mismatch that tells the computed digest; nothing is left over; an error stores nothing; no other blob's files are touched; without a leftover the call is a run of the protocol's save events |
| BlobStore.LeftoverDecidesSave | resin/src/blob_store.rs:156-188 | a save stores a matching blob exactly when the leftover does not change the hash, hence, short of a collision, exactly when there was none |
| BlobStore.LeftoverSpoilsSave | resin/src/blob_store.rs:156-188 | a disk and a stream for which the saved blob does not match its digest |
| BlobStore.FileBlobStore.Delete | resin/src/blob_store.rs:333-363 | deletes exactly the blob's own files, or stops at the first failure; not found only when the content is missing, and then always unless a manifest's root cannot be made; no other blob's files are touched; the call is a run of the protocol's deletes |
| BlobMounter.FileBlobMounter.SearchAcrossAllRepositories | resin/src/blob_mounter.rs:68-86 | the first listed local repository, other than the skipped one, that holds both files; none only if none does |
| BlobMounter.FileBlobMounter.MountBlob | resin/src/blob_mounter.rs:89-124 | Ok(false) exactly when neither the hint nor any listed local repository holds both files; Ok(true) shares the source's inodes, the hint's or else the first listed holder's, and where nothing fails is refused exactly by a file in the destination; an error changes nothing unless undoing fails; the call is a run of the protocol's link events |
| BlobMounter.MountedIsSound | resin/src/blob_mounter.rs:105-121 | after a mount both repositories read the same bytes and media type |
| BlobMounter.MountSurvivesDelete | resin/src/blob_store.rs:333-363 | deleting either end leaves the other as it was, and deleting the new end undoes the mount |
| BlobRuns.CommitReaches | resin/src/blob_paths.rs:78-111 | a save's commit, however it goes, is a run of publish, media type and delete events |
| BlobRuns.CleanUpReaches | resin/src/blob_paths.rs:94-100 | a clean-up, as far as it gets, is a run of delete events |
| BlobRuns.UploadCommitRuns | resin/src/blob_paths.rs:78-111 | an upload's commit, however it goes, is a run of publish or give-up, media type and delete events |
| BlobRuns.UploadCleanUpRuns | resin/src/blob_paths.rs:94-100 | its clean-up, as far as it gets, is a run of purge and delete events |
| BlobPaths.PathOfInjective | resin/src/blob_paths.rs:8-43 | content, media type, save and upload files of different resources or uploads, local or cached, never are the same path |
| BlobPaths.FilesOfFinalRoot | resin/src/blob_paths.rs:27-43 | the folder of a blob holds exactly its own three files |
| BlobPaths.FileLayout | resin/src/blob_paths.rs:8-43 | where a repository keeps content, media types, save files and manifests |
| BlobPaths.RootLayout | resin_types/src/repository.rs:121-128 | where local and cached repositories and uploads are below the storage root |
| BlobPaths.TopFolder | resin_types/src/repository.rs:121-128 | everything the registry stores is below `local` or `upstream` |
| BlobPaths.PurgeReachesExactly | resin/src/blob_uploader.rs:360-370 | given such folders, purge visits exactly the repositories without a namespace that are named like them |
| BlobPaths.VisitedExactly | resin/src/blob_uploader.rs:360-370 | whatever the folders, purge visits exactly the repositories that their names read as |
| Repositories.StoragePathInjective | resin_types/src/repository.rs:121-128 | different repositories, local or cached, are stored in different folders |
| Disks.MediaWriteReachesExactly | file_system/src/lib.rs:583-684 | a media type written in place shows in another blob's exactly when the two are one file |
| Names.DisplayRoundTrip | resin_types/src/name.rs:78-113 | every valid name reads back from its displayed form |
| Names.FsSafeRoundTrip | resin_types/src/name.rs:71-113 | every valid name reads back from its folder name |
| Names.FsSafeInjective | resin_types/src/name.rs:71-76 | different names have different folder names |
| Names.FromNamespaced | resin_types/src/name.rs:57-69 | accepts two parts exactly when they make a valid name, and then gives that name |
| Digests.BytesRoundTrip | resin/src/digest.rs:18-43 | every 32-byte value comes back from its digest, which reads back as text |
| Digests.TextRoundTrip | resin/src/digest.rs:18-67 | every digest comes back from its bytes |
| Digests.BytesOfText | resin/src/digest.rs:34-67 | a digest is its prefix and 64 lower-case hex digits, and each byte is its own pair of them, high digit first |
| Digests.AsBytesInjective | resin/src/digest.rs:34-43 | two digests stand for the same bytes only if they are the same text |
| Digests.ReadBytes | resin/src/digest.rs:34-43 | the loop over digit pairs decodes the hex text |
| Modes.ReadsBack | file_system/src/lib.rs:979-998 | a stored mode word reads as a mode exactly when that mode is observable and its permission bits were stored |
| Modes.SetThenGet | file_system/src/lib.rs:347-363 | setting then reading gives the mode back exactly for the observable ones |
| Modes.NamedModesGrantExactly | file_system/src/lib.rs:347-363 | for owner, group and others, and read, write and execute, a named mode's bit is set exactly when its name says so; likewise inheritance; no other bit is |
| Modes.NamedModesReadBack | file_system/src/lib.rs:986-997 | of the named modes exactly 440 and 700 do not read back |
| Bootstrap.DiscoverServiceState | blueprint/src/service.rs:140-187 | lists exactly the missing groups, memberships, folders, ownerships and modes in order, and fails exactly when an owned folder's owner or group has no name |
| Bootstrap.DiscoverFolderState | blueprint/src/service.rs:207-251 | what one folder adds to the state |
| Bootstrap.PlanServiceBootstrap | blueprint/src/service.rs:253-311 | the steps, phase by phase |
| Convergence.PlanHolds | blueprint/src/service.rs:253-311 | the plan holds exactly the commands for what the machine lacks |
| Convergence.NoStepTwice | blueprint/src/service.rs:253-311 | if a definition names no group and no folder twice, no step is planned twice |
| Convergence.PlanIsEmptyExactlyWhenMet | blueprint/src/service.rs:140-311 | discovery succeeds with an empty plan exactly when the machine meets the definition |
| Convergence.RoundSucceedsExactlyWhen | blueprint/src/service.rs:253-311 | after a discovery a round succeeds exactly when no plain file is in the way of a missing owned folder, and a missing system account has nothing left to be given |
| Convergence.OneRoundIsEnoughExactlyWhen | blueprint/src/service.rs:120-137 | after one round the definition is met exactly when no second pass is needed and every mode can be read back |
| Convergence.SecondPassIsNeeded | blueprint/src/service.rs:120-137 | a definition and a machine on which one round is not enough |
| Convergence.TwoRoundsConverge | blueprint/src/service.rs:120-311 | every round of any sequence succeeds, and after two or more the definition is met, and stays met, exactly when every mode can be read back |
| Convergence.MetIsStable | blueprint/src/service.rs:140-311 | a round on a machine that meets the definition succeeds and does nothing |
| Convergence.PlansKeepTheRest | blueprint/src/commands.rs:1-290 | executing any plan, part of it, or a stale one, removes nothing, keeps every id, and changes no folder outside the definition |
| Convergence.UnreadableModesAreSetForEver | file_system/src/lib.rs:986-997 | a definition with mode 440 or 700 is planned for on every machine |
| Convergence.FoldersGrantExactly | blueprint/src/service.rs:304-310 | after any number of rounds an owned folder grants owner, group and others exactly what the name of its mode says; no named mode lets others read or write |
| Worlds.ExecAchieves | credentials/src/linux_credentials.rs:47-105 | a command of a successful run has reached its goal at the end, whatever came after it |
| Worlds.ExecSucceeds | credentials/src/linux_credentials.rs:22-39 | a list succeeds if each command's needs are in the world or supplied by an earlier command |
| Worlds.AncestorsExactly | file_system/src/lib.rs:1314-1318 | creating a folder in a tree of folders adds exactly it and its missing ancestors, changes no other folder, and leaves a tree |
| Executor.JournalingExecutor.Run | blueprint/src/lib.rs:181-215 | runs, skips, journals and reports in order; on a failure undoes the journal and says which step failed and with what errors |
| Executor.JournalingExecutor.Rollback | blueprint/src/lib.rs:217-234 | drains the journal in reverse, collecting every error |
| Executor.UndoneInReverse | blueprint/src/lib.rs:223-233 | every journaled command itself is rolled back once, last first, whatever fails on the way |
| Executor.StepsJournal | blueprint/src/lib.rs:187-213 | a run none of whose commands fails: the context each is reached in, the journal, skipped commands as given and the others as they ran, behind those of earlier runs, and the messages |
| Executor.StepsFail | blueprint/src/lib.rs:199-209 | the first command that fails: its own error and the context it left, the journal of those before it, and the messages |
| Executor.RollbackReportsEveryError | blueprint/src/lib.rs:217-234 | the errors are those of exactly the rollbacks that failed, last command first, each in the context the later rollbacks left, and every rollback and failure is reported in order |
| Executor.NoErrorsExactlyWhen | blueprint/src/lib.rs:217-234 | there is no rollback error exactly when every rollback worked |
| Executor.FailureRollsBackTheJournal | blueprint/src/lib.rs:199-209 | on a failure exactly the commands before it, and those of earlier runs, are rolled back, from the context the failing one left, and never that one |
| Executor.FailureRestoresTheContext | blueprint/src/lib.rs:181-234 | if commands are reversible, undoing the journal of any sequence of runs leads back to before the first |
| BootstrapRuns.BootstrapService | blueprint/src/bootstrap.rs:27-45 | discover, plan and run with a fresh executor is one round, succeeding or not |
| BootstrapRuns.NamesTellTheKind | blueprint/src/commands.rs:75-273 | two steps have the same name exactly if they are of one kind |
| BootstrapRuns.RollbackUndoesNothing | blueprint/src/lib.rs:73-79 | the bootstrap commands' rollbacks leave the machine as it is |
| BootstrapRuns.FailureLeavesNothingExactlyWhen | blueprint/src/lib.rs:199-209 | for every definition, a failed bootstrap leaves the machine as it was exactly when its first step could not run |
| BootstrapRuns.FailedBootstrapLeavesItsFolder | blueprint/src/service.rs:292-310 | a definition and a machine where the folder is created, its owner does not exist, and the folder stays |
| LogRotation.LogFolder.Rotate | file_system/src/lib.rs:264-272 | the loop of renames is the recursive specification, for every pattern of failures |
| LogRotation.RotationKeepsOrder | file_system/src/lib.rs:264-272 | whichever deletions and renames fail, rotation reorders nothing |
| LogRotation.RotatedExactly | file_system/src/lib.rs:264-272 | where every file is after a rotation, for every pattern of failed deletions and renames |
| LogRotation.RotationLosesTheOldest | file_system/src/lib.rs:264-272 | a working rotation loses exactly the oldest file it keeps and empties the log |
| LogWriter.BufferedFileReporter.Emit | log/src/lib.rs:444-457 | one line, whatever fails, is the specification's step on files and state |
| LogWriter.BufferedFileReporter.WriteLine | log/src/lib.rs:488-520 | the same for the two-state machine, with its drain loop and its counter |
| LogWriter.WhereALineGoes | log/src/lib.rs:488-560 | a line is queued exactly if the log was not open and was not opened for it, and the log is open afterwards exactly if it was written and not rotated, or opened again |
| LogWriter.OpeningWritesTheQueue | log/src/lib.rs:494-501 | opening the log writes the queue and then the line behind what is in the file |
| LogWriter.QueueHoldsTheLatest | log/src/lib.rs:504-508 | over any run in which the log does not open, the queue holds the latest 10,000 lines |
| LogWriter.OpeningWritesTheLatest | log/src/lib.rs:491-508 | and then the file gets these and the line that opened it |
| LogWriter.LinesReadBack | log/src/lib.rs:522-525 | lines without a newline read back from the file's bytes |
| LogWriter.WhatReachesTheFile | log/src/lib.rs:510-525 | unless it is rotated, the file never shrinks and lacks only what the last flush left behind |
| LogWriter.EmitNeverReorders | log/src/lib.rs:488-546 | whatever fails, files, log and queue after a line are what they were and the line, in order, with records left out or cut short, and whole if no write or flush fails |
| LogWriter.LogNeverReorders | log/src/lib.rs:444-560 | the same over any number of lines |
| LogWriter.CounterBoundsTheLog | log/src/lib.rs:522-560 | over any run in which lengths can be read, an open log's counter is at least its length, and exactly its length if no write or flush fails |
| LogWriter.EmitLosesExactly | log/src/lib.rs:510-513 | with writes, deletions and renames working, the loss is exactly the front of a full queue or the oldest rotated file |
| LogWriter.EmitStaysBelowTheLimitExactlyWhen | log/src/lib.rs:527-560 | an open log's counter is below its limit after a line exactly when the line fitted, the log could be renamed, its new length could not be read, or closing it lost enough |
| LogWriter.LogStaysBelowTheLimit | log/src/lib.rs:527-560 | over any run in which lengths can be read and the log can be renamed, an open log is below a positive limit after every line, whatever becomes of the writes |
| Tags.PageHolds | resin/src/tags.rs:38-53 | a page holds exactly the tags after its cursor, up to its own last one when there is more |
| Tags.LessExactlyWhen | resin/src/tags.rs:38-47 | one tag is before another exactly if it is a proper prefix, or smaller at the first character that differs |
| Tags.WalkListsEachTagOnce | resin/src/tags.rs:38-91 | over changing lists the walk is strictly increasing, and at its end has listed every tag that was there all along |
| Tags.FixedWalkListsEverything | resin/src/tags.rs:38-91 | `k` requests on a fixed list end the walk exactly when `k` pages of `n` tags hold it, having listed the whole list, and otherwise list the first `k * n` tags |
| Tags.PageSizeZeroListsNothing | resin/src/tags.rs:49-52 | a page size of 0 gives an empty page, more to come, and no cursor |
| FoldPaths.FoldIsIdempotent | resin/src/lib.rs:621-655 | folding twice is folding once, for every path |
| FoldPaths.FoldedHasOneNameSegment | resin/src/lib.rs:610-655 | a folded path has exactly one segment in front of the recognised tail, which is unchanged |
| FoldPaths.UnfoldingExactlyWhen | resin/src/lib.rs:641-655 | replacing `%2F` by `/` undoes folding exactly when the path had no `%2F` |
| FoldPaths.FoldsToTheFolderName | resin/src/lib.rs:641-655 | a repository's manifest path is routed under the repository's folder name |
| FoldPaths.FoldsBeforeTheLastSlash | resin/src/lib.rs:621-655 | without a known tail, a name in front of a last slash is folded |
| FoldPaths.OtherPathsStay | resin/src/lib.rs:621-640 | and without either, or outside the root, the path stays |
| FoldPaths.RecognisedTails | resin/src/lib.rs:610-619 | the five suffixes are recognised behind any name |
| FoldPaths.OnlyTheseTails | resin/src/lib.rs:610-619 | a recognised tail is one of the five |
| Releases.StartConflicts | release/src/lib.rs:90-118 | the loop lists every entry's conflict in order |
| Releases.Differences | release/src/lib.rs:158-195 | the loops list format, changed or removed, then added entries in order |
| Releases.ConflictsAreTheDownwardDifferences | release/src/lib.rs:90-195 | the conflicts are exactly the downward entries of the differences, in the same order |
| Releases.ConflictsExactly | release/src/lib.rs:90-118 | what each conflict says of the two releases, and that none is missing |
| Releases.DifferencesExactly | release/src/lib.rs:158-195 | what each difference says of the two releases, and that none is missing |
| Releases.DifferencesInOrder | release/src/lib.rs:158-195 | the format first, then the old release's entries that differ, then the new one's that were not listed, in order and once each |
| Releases.ReplayReaches | release/src/lib.rs:158-195 | replaying all differences on the old contents gives the new ones |
| Releases.NoDifferencesExactlyWhenSame | release/src/lib.rs:158-195 | there are no differences exactly when the contents agree |
| Releases.NoConflictsExactlyWhen | release/src/lib.rs:90-118 | a release starts exactly when nothing goes down and nothing disappears |
| Releases.UpgradeChains | release/src/lib.rs:90-118 | if each release of a chain starts over the one before, the last starts over the first |
| ReleasePayloads.Payload.Attach | release/src/lib.rs:197-206 | appends the JSON and its length, or changes nothing |
| ReleasePayloads.Payload.Strip | release/src/lib.rs:228-232 | removes what detaches, or changes nothing |
| ReleasePayloads.DetachExactlyWhen | release/src/lib.rs:208-226 | a payload detaches into a rest and metadata exactly when it is that rest with a JSON text of that metadata attached |
| ReleasePayloads.AttachedLength | release/src/lib.rs:197-206 | the last four bytes are the length of the metadata before them, least significant first |
| ReleasePayloads.DetachAfterAttach | release/src/lib.rs:197-226 | what was attached last detaches first, whatever the payload held |
| ImageReferences.AcceptedPrintsBack | docker_types/src/image_reference.rs:49-107 | every accepted string prints back as itself |
| ImageReferences.PrintedReadsBackExactlyWhen | docker_types/src/image_reference.rs:35-107 | a value of valid parts reads back exactly when its registry looks like a host and its version is not `latest` |
| ImageReferences.AcceptedExactlyWhenPrinted | docker_types/src/image_reference.rs:49-107 | the accepted strings are exactly the printed forms of such values |

## Left out

Stated weaker than the source:

- BlobUploader.FileBlobUploader.WriteChunk: a call that nothing interrupts; its interleavings with other calls are the protocol's, in `UploadTheorems`.
- BlobStore.FileBlobStore.Save: one save at a time per digest; two concurrent saves of one digest share a temporary file and are not modelled.
- BlobCommits.CommitOnce: a failed commit also deletes a final file that was there before, so in `UploadLifetimes.StoredUntilDeleted` such a clean-up counts as a delete.
- Worlds.AncestorsExactly: a failing command changes nothing, so folders created on the way to a failing `create_dir_all` are not seen.

Assumptions of the models:

- An upload's UUID was never used before and names no existing file; it is a parameter in place of the UUID factory.
- A run ends where a save would meet a temporary file left over by an earlier one; while clean-up deletes work, none does (`UploadTheorems.SavesFindNoLeftovers`).
- The folders directly below the storage root are a parameter of purge; of these the registry makes only `local` and `upstream`. Listing a folder misses no file in it.
- Of the registry's folders, only those of uploads are modelled, and nothing removes one; creating any may fail. An inode number is never used again.
- Nobody else renames, deletes or writes the log files.
- Regular expressions are predicates over characters. Lengths count characters, which for accepted texts are bytes; a text of too many bytes but few characters may be reported as invalid rather than too long.
- Owners and groups of folders are names rather than numeric ids, and operating system commands fail only when what they need is missing.
- Whether half a second has passed between two attempts to open the log is a free choice, and lines are bytes without their formatting.
- Tags compare character by character, which for UTF-8 is the order of their bytes.
- Reading JSON and SHA-256 are parameters; of the first, that what is written reads back, and of the second, that it gives 32 bytes.

Not modelled:

- Routing, HTTP status codes, sockets, daemons, and the Docker, OpenBao, seedbank and bract clients.
- The lookups `get` and `stats` of the blob store, and reading and writing tags and manifests.
- Parsing repository references, and proxying to upstream registries; cached repositories appear with the paths they are stored under.
- Terminal output, command lines, and the formatting of log lines.
- The inside of SHA-256, UUID parsing (a parameter), JSON, signatures and encryption.
- The macOS credential backend, listeners and sockets of a service definition, and liveness checks.
- Enumerations, labels, and validators that only check one field.
