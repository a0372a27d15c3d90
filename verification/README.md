# Verified models of the HLS engine's coordination protocols

The engine uploads videos, transcodes them, publishes HLS presentations and deletes videos again,
with several services and many workers acting on the same files, rows and objects. What keeps them
from harming each other is a handful of protocols, each spread over several functions. This project
models those protocols in Dafny and proves what they promise.

| file | what it models |
|---|---|
| `JobLocks.dfy`, `JobLockCalls.dfy`, `LockOrder.dfy` | `flock` plus unlink behind a namespace guard: a machine over system calls of any number of processes, the lock functions as programs that run between the steps of others, and the order in which all tasks acquire |
| `Fencing.dfy`, `FencingCalls.dfy` | generation fencing of jobs: one transaction per step over video and job rows and the object store; the transactions as methods that change the rows |
| `Playlists.dfy`, `Publication.dfy` | validating a local HLS presentation, and publishing it one store operation at a time, with a failure or a crash at any of them |
| `DeletionSaga.dfy`, `DeletionCalls.dfy`, `PrefixDelete.dfy` | deletion against uploads, multipart completion, ingestion and packaging: leases, row locks, tombstone, verified removal; and the directory prefixes that are removed |
| `CachePurger.dfy`, `CachePurgerCalls.dfy`, `CacheWalker.dfy`, `CachePaths.dfy` | revocation over replicas that share a tombstone volume, mounted or not, sweep generations, the explicit-stack directory walk, and the two parsers of request paths |
| `GpuLeases.dfy` | the Redis scripts for weighted expiring GPU leases, and claiming one of several GPUs |
| `EncodePlan.dfy`, `GpuRouting.dfy`, `Reassembly.dfy` | cutting a timeline into bounded slices, routing renditions to GPUs, replacing lost slices, and putting all results together again |
| `Promotion.dfy` | promotion of rendition directories by renames, with rollback, under any schedule of failing renames and crashes |
| `TrackIdentity.dfy` | path-safe distinct track ids and distinct names, and recovering an id from a path |
| `Multipart.dfy` | part layout arithmetic, the part validator, paged listing, and completion of a multipart upload |
| `Common.dfy`, `Paths.dfy`, `Sorting.dfy`, `Splitting.dfy`, `Arithmetic.dfy` | shared types, and facts about paths, lists and numbers |

`dafny verify dfyconfig.toml` checks everything.

## How to read it

Protocols with interleaving are machines: a state, an `Action` or `Step` datatype, `Can` for when a
step is possible and `Do` for its effect. A `Legal` run is any sequence of possible steps, so theorems
about runs are about every interleaving and every crash. Code that changes objects step by step is
also a class; its methods are proved to do what the machine's steps say (`FencingCalls`,
`CachePurgerCalls`), or run with an adversary between their steps (`JobLockCalls`, `DeletionCalls`,
`GpuLeases`).
Safety over all runs says nothing if the runs cannot happen, so each machine also has theorems that its
steps lead where they should (`JobLocks.SomebodyMoves`, `Fencing.UploadsBecomeReady`,
`DeletionSaga.UploadsGetThrough`, `CachePurger.ReplicasConverge` and those beside them).
External calls get their outcome from a fault list, so a method's contract covers every outcome.

## Assumptions

- A database session, with its row and advisory locks, lives as long as the code that uses it.
- A read under `FOR UPDATE` is fresh, and so is the status read under an advisory lease.
- A commit takes effect or aborts and the caller learns which. After an ambiguous commit of the
  package transaction, "ready implies master present" would not follow.
- A process that crashed writes nothing any more. Crashes of processes, not of machines, are meant.
- Job ids, inode numbers, session ids and lease ids are not reused; video ids may be.
- Video ids in the database are canonical: the id columns have the type UUID
  (services/metadata/internal/repository/schema.sql:3, services/transcoder/app/models.py:178), which
  refuses other text and gives back lower case.
- `uuid.Parse` of github.com/google/uuid 1.6.0 takes the four layouts of `PrefixDelete.ParsedId`.
- A store request that failed or timed out has taken effect by then or never will. After a PUT that
  lands later than the second withhold, a master could be back without its files.
- No process asks for a lock file that it holds already.
- The published directory is not changed by others while it is published.
- Clock readings and durations are real numbers; media durations are exact.
- Two lock keys have two lock files (the file names are hashes of the keys).

## Where the code does less than one might think

Each of these is a proved statement about the model, with the exact condition next to it.

- **Guard and sweep read paths differently** (`CachePaths.SpacedSpellingIsMissed`). The guard decodes
  the URI before it trims and checks the video id, the sweep reads the raw URI in the cache key. For
  `/hls/%20<id>/x` the guard accepts and names the video, and the sweep never removes what was cached
  under it. `CachePaths.ReadersAgreeExactly`: they agree exactly when the raw id segment has no percent
  sign; they never name two different videos.
- **A presentation can be discoverable before its video is ready** (`FencingCalls.Database.PublishAndCommit`).
  Behind a publication the task looks at the marker once more, and if that look fails it raises without
  withholding the master: the whole presentation stays discoverable although the video is not ready. All
  other failures short of a dying process leave nothing unless the removal of the master fails too.
- **Ways past a tombstone** (`CachePurger.AcknowledgedIsFinal`). `lookupRevoked` looks for the
  tombstone first and verifies afterwards that the root is a directory, but not that it is the volume;
  and the service creates a directory there itself when nothing is mounted. An acknowledged revocation
  is ignored by a guard exactly when that process does not know the video, the first look finds nothing
  at the root or a directory without the tombstone, and the second finds a directory; the shared volume
  is no such directory if the tombstone went there. `CachePurger.RestartWithoutVolumeAdmits`: a restart
  while the volume is unmounted is such a case, which the comment at main.go:450-455 says fails closed. A
  process that started with the volume mounted admits nothing that was acknowledged on it before
  (`CachePurger.StartedOnTheVolumeKnows`).
- **A revocation without the volume is lost** (`CachePurger.RevokedWithoutVolumeIsLost`). `revoke` writes
  into whatever directory is at the root and acknowledges; other replicas never hear of it.
- **The cleanup of an attempt can delete the last copy** (`Promotion.LastCopyCanGo`).
  `_cleanup_attempt_root` asks `os.path.isdir` for the backups, which answers no when it cannot look, and
  then removes the attempt with them. `Promotion.Disk.Deliver`: old directories are lost exactly if that
  look fails while one of them is not back in its place. A failing `scandir` is safe.
- **A rollback can end without raising and without being complete** (`Promotion.UndoneInPart`). Its
  `os.path.lexists` looks answer no as well when they fail. A rollback that does not raise restores the
  start exactly if the looks it takes, two at a height with an old directory and one at any other, see
  what is there (`Promotion.Disk.Rollback`); for a whole promotion these are the looks that are left
  where its loop ends (`Promotion.Disk.Promote`, with `Promotion.UndoSees`).
- **A deleted id can be submitted again** (`DeletionSaga.GoneForGood`). `POST /jobs` inserts a row for
  any id without one. A finalized video stays gone exactly until then; afterwards it is live, its cache
  tombstone still refuses it, and the upload events from before the deletion name missing objects
  (`DeletionSaga.SubmittedAgain`).
- **Converged is not for good** (`CachePurger.ConvergedCanRegress`). A later sweep that fails sets a
  converged record back to retrying. A record is converged exactly when its required generation is
  over and the last finished sweep did not fail.
- **A second upload of a ready video cannot be deleted** (`Fencing.SecondUploadStrands`,
  `Fencing.RefusedOnceRefusedForever`). Its job is never run, failed or superseded, and it makes
  deletion refuse, now and in every continuation.
- **Supersession without failure is not final** (`Fencing.ComesBackExactly`). A job can become the
  current generation again, however many newer ones there are, exactly if it has not ended and its video
  is not ready; its workspace may be gone by then (`Fencing.WorkspaceMayBeNeeded`,
  `Fencing.SupersededCanComeBack`). Permanence holds for jobs marked failed (`Fencing.FailedStaysFenced`).
- **Raw paths do not always give the track id back** (`TrackIdentity.AudioLanguageIsAmbiguous`). The
  second of two tracks with the language tag "audio" is `audio_2`, and its raw path reads as track `2`.
  `TrackIdentity.RawPathKeepsIdentity` has the exact condition; packaged paths always work.

## Model

| member | source | states |
|---|---|---|
| JobLocks.NobodyHoldsAnUnlinkedLock | services/transcoder/app/job_lock.py:138-414 | in every run of any number of openers, releasers, sweepers and crashes, whatever order they ask in, each holder of a key holds the inode linked at its path, an exclusive holder is alone, and shared holders share one inode |
| JobLocks.StepKeepsInv | services/transcoder/app/job_lock.py:138-414 | no step of any process, taken in any sound state, lets two processes claim a key against each other or lets a guard be shared and exclusive at once |
| JobLocks.InvImpliesPromise | services/transcoder/app/job_lock.py:318-414 | the inductive invariant implies what users of the lock rely on |
| JobLocks.InitialIsSound | services/transcoder/app/job_lock.py:42-61 | an empty lock directory with any number of idle processes is sound |
| JobLocks.UnlinkKeepsInv | services/transcoder/app/job_lock.py:185-238 | removing a probed path under the exclusive guard takes the file from under nobody, neither a holder nor an opener between open and lock |
| JobLocks.OpenKeepsInv | services/transcoder/app/job_lock.py:340-372 | opening or creating the target under the shared guard keeps every claim on the linked inode |
| JobLocks.TakeTargetKeepsInv | services/transcoder/app/job_lock.py:70-81 | a `flock` granted on the opened inode leaves no two claims on a key that exclude each other |
| JobLocks.GrantedMeansUnclaimed | services/transcoder/app/job_lock.py:70-81 | inside the guard a grantable lock means that no other process claims the key in a conflicting mode |
| JobLocks.ProbeSeesOneInode | services/transcoder/app/job_lock.py:185-238 | under the exclusive guard the inode of `lstat` and that of the opened file are the same, so the unsafe-path branch needs somebody outside the protocol |
| JobLocks.WaitsGoUp | services/transcoder/app/job_lock.py:138-182 | where requests follow the acquisition order, whoever is waited for waits for something strictly higher, or for nothing |
| JobLocks.NoWaitCycle | services/transcoder/app/job_lock.py:138-182 | in every non-empty set of such processes one waits for nobody in the set: guards, lock files and row locks together cannot deadlock |
| JobLocks.BlockedMeansWaits | services/transcoder/app/job_lock.py:138-182 | what the waiting relation leaves out is no reason to stand still: a process in the middle of something can take a step or waits for somebody |
| JobLocks.SomebodyMoves | services/transcoder/app/job_lock.py:138-182 | in every state that keeps the acquisition order, as long as one process is in the middle of a lock, a cleanup or a row wait, one of those can take a step or waits for a process that is in none |
| JobLocks.HoldersCanLetGo | services/transcoder/app/job_lock.py:241-259 | a process running its own code can let go of everything it holds without anybody else moving |
| JobLocks.CrashFreesAll | services/transcoder/app/job_lock.py:138-414 | a process that dies holds nothing any more and changes no path |
| JobLocks.RunsKeepOrder | services/transcoder/app/job_lock.py:318-414 | if every request of a run is above what its process holds, every state of it is one in which nobody can deadlock |
| JobLocks.TasksAskUpwards | services/transcoder/app/tasks/transcode_video.py:1512-1547 | every task makes only such requests, at every depth of its nested acquisitions |
| JobLocks.TaskRunsAreInOrder | services/transcoder/app/tasks/transcode_video.py:1512-1547 | so every run whose requests are made by tasks follows the acquisition order |
| JobLocks.TasksNeverDeadlock | services/transcoder/app/job_lock.py:138-182 | from the empty directory on, any number of processes running any tasks, with crashes and sweeps, never reach a state in which some of them wait for each other in a circle |
| JobLocks.OutOfOrderCanWaitForever | services/transcoder/app/job_lock.py:318-414 | `job_lock` itself does not enforce an order, and without one a legal run from the empty directory brings any two keys' holders to where they wait for each other |
| JobLocks.SweepersFinish | services/transcoder/app/job_lock.py:262-315 | the exclusive owner of the guard never waits and each of its steps shrinks its remaining work, so waits for the guard end |
| JobLockCalls.OthersRespectGuard | services/transcoder/app/job_lock.py:138-182 | other processes leave the directory alone while a sweeper has the guard, and leave linked paths linked while an opener has it |
| JobLockCalls.RefusedMeansHeld | services/transcoder/app/job_lock.py:185-238 | a sweeper's non-blocking probe is refused exactly if some process holds the key |
| JobLockCalls.WorkVolume.JobLock | services/transcoder/app/job_lock.py:318-414 | with others running between all system calls: success holds the inode that is linked now, alone if exclusive; busy is answered only to non-blocking callers, changes nothing, and only while another process owns the guard or has the linked file in a conflicting mode; an unfinished wait names a process that is waited for |
| JobLockCalls.WorkVolume.WaitForGuard | services/transcoder/app/job_lock.py:138-182 | the guard is entered, refused, or still waited for with a culprit, and nothing held is lost |
| JobLockCalls.WorkVolume.Open | services/transcoder/app/job_lock.py:340-372 | the opened inode is the one linked at the path when the call returns |
| JobLockCalls.WorkVolume.WaitForTarget | services/transcoder/app/job_lock.py:340-385 | the target is locked on the opened inode, refused, or still waited for with a culprit |
| JobLockCalls.WorkVolume.LetGuardGo | services/transcoder/app/job_lock.py:372-385 | after the guard is released the lock held is on the linked inode, and an exclusive one is alone |
| JobLockCalls.WorkVolume.Unlock | services/transcoder/app/job_lock.py:241-259 | release gives up this key and no other, and its fast cleanup never waits: it finds the guard taken by somebody else, or leaves the file gone or held by some process; with nobody else acting the file goes exactly if the guard is free and no other process holds the key |
| JobLockCalls.WorkVolume.FastCleanup | services/transcoder/app/job_lock.py:241-259 | the cleanup behind a release does what its answer says |
| JobLockCalls.WorkVolume.RemoveIdleLockFile | services/transcoder/app/job_lock.py:185-238 | the answer is right: removed means unlinked and held by nobody, in use means some process holds the key, absent means it was not there; no other path changes |
| JobLockCalls.WorkVolume.Reap | services/transcoder/app/job_lock.py:262-315 | at most the limit is scanned and counts add up; exactly the removed paths go from the directory as found under the guard, all of them listed; with nobody else acting these are the listed ones that no process holds, and the busy count is of those that somebody holds; no unsafe path is met, and the reaper holds what it held before |
| JobLockCalls.WorkVolume.Visit | services/transcoder/app/job_lock.py:283-313 | the loop over the listing removes exactly the counted paths, and with nobody else acting counts as busy exactly those with a holder |
| LockOrder.TasksAcquireInOrder | services/transcoder/app/tasks/transcode_video.py:1533-1547 | every lock or row any task acquires is strictly above all it still holds, for every task and every list of heights |
| LockOrder.GroupAscends | services/transcoder/app/tasks/transcode_video.py:1512-1547 | a group task takes its rendition locks in ascending height, above the job lock |
| LockOrder.JobLockComesFirst | services/transcoder/app/tasks/transcode_video.py:1512-1547 | whatever a task acquires for a job it acquires under the job lock, but for a retry's bare row lock |
| JobLockCalls.CleanupIsAlone | services/transcoder/app/tasks/workspace_cleanup.py:333-340 | while a cleanup has the job lock exclusively, no task has any file lock of that job, at any depth of its nesting |
| Fencing.RunsKeepInv | services/transcoder/app/tasks/package.py:256-449 | in every run of ingest, pipeline, package, retry, watchdog, failure and deletion steps: a completed job's video is ready or deleting, a ready video has exactly one completed job and the whole presentation it published, in whatever version, is in the store below the video's directory, a deleting video has no active job, and no job is dispatched twice |
| Fencing.StepKeepsInv | services/transcoder/app/job_fencing.py:84-149 | each transaction alone keeps these facts from any state that has them |
| Fencing.PackageKeepsInv | services/transcoder/app/tasks/package.py:256-449 | publishing any version and then committing, withholding or dying keeps them, given only what publication promises about the store |
| Fencing.WatchdogKeepsInv | services/transcoder/app/main.py:619-817 | a watchdog round on any video keeps them, whatever it decides |
| Fencing.WatchdogLeavesAlone | services/transcoder/app/main.py:619-817 | a video that is not in progress, or makes progress and has retries left, is left alone |
| Fencing.WatchdogRetriesStuck | services/transcoder/app/main.py:619-817 | a stuck one with a source and retries left is run again: the new generation passes the fence, no other does, and a retry is used up |
| Fencing.WatchdogGivesUp | services/transcoder/app/main.py:619-817 | out of retries the video fails and no generation of it passes the fence |
| Fencing.ReplaceKeepsInv | services/transcoder/app/main.py:484-577 | replacing all active generations by a new one keeps them |
| Fencing.IngestKeepsInv | services/transcoder/app/event_consumer.py:28-89 | a delivered or redelivered upload event keeps them |
| Fencing.DeletionKeepsInv | services/metadata/internal/repository/repository.go:220-361 | committing the tombstone, removing objects and deleting the row keep them |
| Fencing.DeletionProceedsExactly | services/metadata/internal/repository/repository.go:220-361 | the tombstone is committed exactly for a video without unfinished jobs and touches no other, and the row goes exactly behind it |
| Fencing.DeletionsComplete | services/metadata/internal/repository/repository.go:220-361 | every video without unfinished jobs can be deleted to the end: row, jobs and everything below its home go, and nothing of any other video |
| Fencing.CurrentHasNoCompleted | services/transcoder/app/job_fencing.py:84-149 | a generation the fence lets write has no completed sibling, and its video is neither ready nor deleting |
| Fencing.OthersStayPlayable | services/transcoder/app/tasks/package.py:386-392 | store writes below one video's directory leave whatever any other video has published playable |
| Fencing.SlashesBehindDoNot | services/transcoder/app/minio_client.py:162-168 | slashes behind a version make no difference |
| Fencing.VersionsAreSegments | services/transcoder/app/minio_client.py:162-168 | a version of ordinary segments is published below the home of its video under just these segments |
| Fencing.StepMovesForward | services/transcoder/app/job_fencing.py:34-43 | a step never takes a job out of completed or failed, never moves what it published, never lowers its rank, and never lowers its dispatch count |
| Fencing.RunsMoveForward | services/transcoder/app/job_fencing.py:34-43 | the same over every run in which the job's video is not deleted |
| Fencing.FailedStaysFenced | services/transcoder/app/job_fencing.py:84-193 | a generation marked failed never passes the fence again, whatever follows |
| Fencing.ReadyUntilDeleted | services/transcoder/app/tasks/package.py:256-449 | a ready video stays ready, playable and completed by the same job at the same prefix until a deletion begins |
| Fencing.UploadsBecomeReady | services/transcoder/app/tasks/pipeline.py:248-548 | whatever happened before, an upload of a video that is neither ready nor being deleted has a legal run to ready: dispatched once, published, served |
| Fencing.RetriesBecomeReady | services/transcoder/app/main.py:484-577 | likewise for a manual retry of every video that is neither ready nor deleting and has a source or an input |
| Fencing.StuckJobsBecomeReady | services/transcoder/app/main.py:619-817 | likewise for the retry of a stuck job by the watchdog |
| Fencing.SubmissionsBecomeReady | services/transcoder/app/main.py:301-335 | likewise for a job submitted for an id without a row |
| Fencing.NewVideosBecomeReady | services/transcoder/app/event_consumer.py:28-89 | likewise for a video that is only now created |
| Fencing.RetryTakesOver | services/transcoder/app/main.py:484-577 | an accepted retry is the current generation at once, whatever creation times say |
| Fencing.RefusedOnceRefusedForever | services/metadata/internal/repository/repository.go:251-266 | a ready video whose deletion is refused once is ready and refuses deletion in every continuation |
| Fencing.SecondUploadStrands | services/transcoder/app/event_consumer.py:28-89 | ingesting another upload of a ready video creates exactly that situation |
| Fencing.EligibleIsFenced | services/transcoder/app/tasks/workspace_cleanup.py:233-260 | whenever a workspace may be removed, the fence rejects its job in that same database state |
| Fencing.KeptExactly | services/transcoder/app/tasks/workspace_cleanup.py:153-260 | the workspaces that are kept are exactly that of the generation which may still write and that of an upload stranded on a ready video |
| Fencing.SupersededCanComeBack | services/transcoder/app/tasks/workspace_cleanup.py:233-260 | a legal run in which a job whose workspace was eligible becomes current again |
| Fencing.ComesBackExactly | services/transcoder/app/job_fencing.py:70-149 | for every state: some continuation that keeps the video makes a job current exactly if it has not ended and its video is not ready |
| Fencing.WorkspaceMayBeNeeded | services/transcoder/app/tasks/workspace_cleanup.py:233-260 | a workspace eligible as superseded may be needed again exactly if its job is not completed and its video not ready |
| FencingCalls.LatestIsUnique | services/transcoder/app/job_fencing.py:70-81 | the newest non-failed job is one job, whatever the creation times |
| FencingCalls.Database.LatestNonfailedJob | services/transcoder/app/job_fencing.py:70-81 | the scan returns the newest candidate, and nothing only if there is no candidate |
| FencingCalls.Database.LockCurrentJob | services/transcoder/app/job_fencing.py:84-149 | the branches decide exactly the fence that the run theorems are about |
| FencingCalls.Database.AdvanceJobStatus | services/transcoder/app/job_fencing.py:152-164 | one row moves to the higher rank or stays, and the answer says whether it changed |
| FencingCalls.Database.SupersedeActiveJobs | services/transcoder/app/job_fencing.py:167-193 | exactly the active jobs of the video other than the replacement fail, with the cause, and the count is their number |
| FencingCalls.Database.PrepareIngestionJob | services/transcoder/app/event_consumer.py:28-89 | rows change as the ingest step says; a missing video, a tombstone and a job of another video are answered exactly where they are; what is reported persisted is in the table |
| FencingCalls.Database.ClaimPipeline | services/transcoder/app/tasks/pipeline.py:248-276 | claimed exactly if the job passes the fence, is of this video, unfinished and never dispatched, and then the video is processing; otherwise nothing changes beyond the claim step |
| FencingCalls.Database.DispatchPipeline | services/transcoder/app/tasks/pipeline.py:521-548 | dispatched exactly if the job passes the fence, unfinished and never dispatched, and the commit succeeds; then the count goes from zero to one |
| FencingCalls.Database.OnPipelineFailure | services/transcoder/app/tasks/pipeline.py:601-648 | only a current, unfinished generation is failed, together with its video |
| FencingCalls.Database.RetryVideo | services/transcoder/app/main.py:484-577 | rows change as the retry step says, each refusal has its exact reason, and a submitted retry passes the fence |
| FencingCalls.Database.WatchdogTick | services/transcoder/app/main.py:619-817 | one candidate changes rows as the watchdog step says |
| FencingCalls.Database.RunPackage | services/transcoder/app/tasks/package.py:256-449 | with the real publication inside, for any version: every outcome is one the machine's package step allows; it is packaged exactly if the version is a path, the presentation valid with a master that is not empty, nothing fails and the database commits; otherwise nothing but an empty master is discoverable unless operations failed, and after a refused commit nothing unless the removal of the master, which comes last, failed; a completed job is reused exactly if its marker is seen |
| FencingCalls.Database.PublishAndCommit | services/transcoder/app/tasks/package.py:386-426 | the same behind the fence; and if it is the look at the published marker that fails, all of the presentation stays discoverable |
| FencingCalls.Database.Commit | services/transcoder/app/tasks/package.py:400-426 | a commit makes the video ready; a refused one leaves the rows and removes the master, and the answer says whether that succeeded |
| FencingCalls.Database.BeginVideoDeletion | services/metadata/internal/repository/repository.go:220-294 | the tombstone is committed exactly if the video exists and has no active job |
| Playlists.ResolveMeansNavigate | services/transcoder/app/minio_client.py:231-276 | a reference is accepted exactly if it is local and relative and walking its segments, never leaving the directory, ends at a collected file, and then it is that file |
| Playlists.NormFollowsNavigation | services/transcoder/app/minio_client.py:259-274 | path normalization agrees with walking segment by segment, and escapes show as a leading dot-dot |
| Playlists.ValidateMediaPlaylist | services/transcoder/app/minio_client.py:279-332 | the line loop accepts exactly the media playlists with the required header, and all segments, maps and keys resolved |
| Playlists.ComparisonDecidesPairing | services/transcoder/app/minio_client.py:335-406 | comparing the two collected URI lists decides whether every stream tag has its own URI line and no URI stands alone |
| Playlists.MediaAssetsExactly | services/transcoder/app/minio_client.py:303-312 | what a media playlist makes a player fetch is every URI line and every URI in a tag |
| Playlists.MasterPlaylistsExactly | services/transcoder/app/minio_client.py:344-366 | what a master makes it fetch is every URI line and every URI of a media entry |
| Playlists.PlaylistsByExtension | services/transcoder/app/minio_client.py:390-400 | a playlist is a file whose name ends in .m3u8 in any mix of cases |
| Playlists.MediaPlaylistExactly | services/transcoder/app/minio_client.py:279-332 | likewise for a media playlist: header, end, no stream tag, as many segment tags as URI lines, and every URI leads to a file of the directory that is not empty and no playlist |
| Playlists.PresentationExactly | services/transcoder/app/minio_client.py:335-406 | what the validator accepts, said by what a player meets: header, pairs of stream tag and URI line, one URI per audio or subtitles entry, every offered URI leads to an acceptable media playlist of the directory, no playlist left out |
| Playlists.ScanMaster | services/transcoder/app/minio_client.py:335-390 | one pass accepts exactly the well-shaped masters and lists exactly their playlists |
| Playlists.CheckPlaylists | services/transcoder/app/minio_client.py:390-406 | all listed playlists are valid, each one visited, and the set is exactly those referenced |
| Playlists.ValidatePresentation | services/transcoder/app/minio_client.py:335-406 | the whole validator accepts exactly the presentations that are closed under reference |
| Publication.AtomicPublish | services/transcoder/app/minio_client.py:487-585 | whatever fails and wherever it dies, at every store state on the way a player finds the old presentation, all of the new one or none; it publishes exactly a valid presentation over operations that all succeed, and then exactly the validated files are there; after an error the master is removed once more as the last operation, and whether that succeeded is what it says; so one failure leaves no master |
| Publication.CoherentIsClosed | services/transcoder/app/minio_client.py:487-585 | in all those states, if the master is there then everything it leads to is there |
| Publication.ValidatedIsClosed | services/transcoder/app/minio_client.py:335-406 | what the validator accepts, stored file by file, leaves no dead end for a player |
| Publication.UploadStage | services/transcoder/app/minio_client.py:409-440 | while the master is hidden the files of a stage are stored in any order; it succeeds exactly if all its operations do, and then all files are there with their content; after a failure only some of them were added |
| Publication.ReconcileInventory | services/transcoder/app/minio_client.py:466-484 | success means the names below the prefix are exactly the expected ones; it succeeds exactly if its operations do and nothing expected was missing; the master stays hidden throughout |
| Publication.RemoveStale | services/transcoder/app/minio_client.py:473-475 | everything below the prefix that is not expected goes, up to the first removal that fails |
| Publication.UploadAll | services/transcoder/app/minio_client.py:528-560 | all files but the master are stored and nothing else is below the prefix, all while hidden |
| Publication.UploadStages | services/transcoder/app/minio_client.py:528-547 | both stages are stored, each exactly if its operations succeed |
| Publication.CommitMaster | services/transcoder/app/minio_client.py:560-572 | storing the master is the one step from nothing to the whole presentation |
| Publication.PublishSteps | services/transcoder/app/minio_client.py:487-572 | the protected block reaches only coherent states, begins with a removal of the master, and is done exactly for a valid presentation over operations that all succeed |
| Publication.UploadAndCommit | services/transcoder/app/minio_client.py:528-572 | from the withheld master on, only hidden states and the whole new presentation are reached |
| Publication.BothStagesStored | services/transcoder/app/minio_client.py:528-560 | the playlist stage does not undo the asset stage |
| DeletionSaga.RunsKeepInv | services/metadata/deletion.go:73-201 | in every interleaving of deletions, submissions, uploads, package runs, ingestion and crashes: a row that is gone has its cache tombstone and three empty prefixes, and of the published upload events of a live video exactly those since its row was created name an object stored at the event's size |
| DeletionSaga.StepKeepsInv | services/metadata/deletion.go:73-201 | each step alone keeps the facts behind that |
| DeletionSaga.GoneForGood | services/metadata/internal/repository/repository.go:303-361 | once finalized, the row stays gone and the prefixes empty exactly as long as nobody submits the id again, and the cache tombstone stays even then |
| DeletionSaga.SubmittedAgain | services/transcoder/app/main.py:301-335 | a finalized id can be submitted: the video is live and revoked, and every event from before names an object that is missing |
| DeletionSaga.FailedSavesCanBeRepeated | services/upload/internal/handler/multipart.go:404-450 | a completion step whose save fails changes nothing, and the next request meets the same record |
| DeletionSaga.TombstonedVideosOnlyShrink | services/metadata/internal/repository/repository.go:220-294 | from the committed tombstone on, until the row is created anew, no job and no object or upload is added, and it is never taken back |
| DeletionSaga.RevokedBeforeRemoved | services/metadata/deletion.go:135-157 | a deletion removes an object only after the durable revocation; the only other remover is the package of a live video, in the HLS bucket |
| DeletionSaga.FinalizeNeverRefuses | services/metadata/internal/repository/repository.go:303-361 | after verified cleanup the checks of the final transaction cannot fail |
| DeletionSaga.RetriedDeletionCanFinish | services/metadata/deletion.go:73-133 | however a deletion was cut short, one more attempt alone can reach the end from every state with free lease and row |
| DeletionSaga.UploadsGetThrough | services/upload/internal/handler/multipart.go:91-553 | while no deletion has begun a client alone can open a session, upload and complete it, and its event is published with the object stored at its size |
| DeletionSaga.DirectUploadsGetThrough | services/upload/internal/handler/upload.go:77-178 | a live video that nobody deletes can be uploaded in one request |
| DeletionSaga.UnsavedUploadsAreAborted | services/upload/internal/handler/multipart.go:165-200 | an upload whose session is not saved is aborted by the same request |
| DeletionSaga.PackagesGetThrough | services/transcoder/app/tasks/package.py:340-411 | undisturbed, a job of a live video is packaged and done |
| DeletionSaga.PackagesCanBeGivenUp | services/transcoder/app/tasks/package.py:386-411 | its objects can be withheld again, with the job left for a retry or ended |
| DeletionSaga.LeftoversCanGo | services/upload/internal/handler/multipart.go:453-469 | an abandoned upload, its session and a job can be ended at any time |
| DeletionSaga.VideosBegin | services/transcoder/app/main.py:301-335 | a video begins with a row, with a job or without one |
| DeletionSaga.CrashGivesBack | services/internal/videolease/lease.go:55-165 | a process that dies gives back its lease and its row lock |
| DeletionSaga.LocksAreTakenFree | services/internal/videolease/lease.go:55-85 | a lease or row lock is only ever taken where nobody holds a conflicting one |
| DeletionSaga.LocksKept | services/internal/videolease/lease.go:55-165 | an exclusive lease excludes all leases, and there is one row lock |
| DeletionSaga.InitialIsSound | services/metadata/internal/repository/repository.go:88-106 | before the video exists all facts hold |
| DeletionCalls.AdmittedWritesAreSafe | services/upload/internal/handler/video_guard.go:29-56 | while an admitted upload has not answered, no run of all others starts a deletion of its video |
| DeletionCalls.OthersLeaveMe | services/internal/videolease/lease.go:55-165 | steps of others never move a handler or take its lease |
| DeletionCalls.Deployment.AcquireVideoWrite | services/upload/internal/handler/video_guard.go:29-56 | admission means a shared lease and a live video at once; refusal leaves nothing held and is answered only for an exclusive lease or a video that is not live; undisturbed, the answer is decided by these two |
| DeletionCalls.Deployment.BeginVideoDeletion | services/metadata/internal/repository/repository.go:220-294 | it goes on only with the exclusive lease, the committed tombstone and no active job; every other way out gives the lease back and has its reason in the state; undisturbed, lease, row lock and row decide which, and nothing else is changed |
| DeletionCalls.Deployment.MarkDeleting | services/metadata/internal/repository/repository.go:232-294 | the part with the lease held, likewise |
| DeletionCalls.Deployment.WriteTombstone | services/metadata/internal/repository/repository.go:232-289 | the transaction commits exactly for an existing video without active jobs, and otherwise only gives its locks back |
| DeletionCalls.Deployment.DeletePrefix | services/internal/minio/minio.go:117-243 | with others acting and calls failing anywhere, success means that uploads and objects below the prefix are gone when it returns; undisturbed it succeeds exactly if none of its calls fails, and stops after the stage in which one did |
| DeletionCalls.Deployment.VerifyEmpty | services/internal/minio/minio.go:210-240 | the final listings succeed only if nothing is left and both are answered, and always then if nobody writes |
| DeletionCalls.Deployment.ListAndRemove | services/internal/minio/minio.go:122-208 | one listing and its removals, undisturbed: how many calls it makes, exactly when it succeeds, and that only listed ids go |
| DeletionCalls.Deployment.RemoveListed | services/internal/minio/minio.go:122-208 | one call for every listed id, also after a failure; it succeeds exactly if none fails, and undisturbed exactly those whose own removal failed are left |
| DeletionCalls.Deployment.CleanupResources | services/metadata/deletion.go:135-201 | success means the revocation and all three prefixes are done, in any order; failure gives the lease back and leaves the tombstone; undisturbed it succeeds exactly if no call fails, and each prefix whose own calls succeed is emptied, whatever became of the others |
| DeletionCalls.Deployment.CleanPrefixes | services/metadata/deletion.go:152-200 | all prefixes are tried: undisturbed, each is emptied if its own calls succeed, with the answers that the ones before it left; it succeeds exactly if all are verified empty |
| DeletionCalls.Deployment.Finalize | services/metadata/internal/repository/repository.go:303-361 | the row goes, with tombstone and empty prefixes, or the tombstone stays and the row lock was not free |
| DeletionCalls.Deployment.Delete | services/metadata/deletion.go:73-133 | reported success means gone cleanly; however it ends the lease is back, and a retryable failure leaves the tombstone; undisturbed it deletes exactly if it may begin and no call fails, answers the reason why it may not, and then has changed nothing |
| DeletionCalls.SmoothCleans | services/metadata/deletion.go:135-201 | if no call fails then every prefix is cleaned, whatever is stored and in whatever order |
| PrefixDelete.PrefixesSeparateVideos | services/metadata/deletion.go:211-222 | no key lies below the prefixes of two videos, so a deletion reaches no other video |
| PrefixDelete.WritersStayBelowPrefix | services/upload/internal/handler/multipart.go:165-167 | however a request spells the id, with urn:uuid:, braces or no hyphens: the names of uploads and of published presentations in every version lie below the prefixes the deletion removes |
| PrefixDelete.ParsedIsStored | services/upload/internal/handler/video_guard.go:33-37 | every accepted spelling is parsed to the lower-case id in the canonical layout, which the purger reads as the same video |
| PrefixDelete.SpellingsAreParsed | services/upload/internal/handler/video_guard.go:33-37 | each of the four spellings of an id is parsed to that id |
| PrefixDelete.OnlySpellingsAreParsed | services/upload/internal/handler/video_guard.go:33-37 | nothing else is parsed |
| PrefixDelete.VideoPrefixesAreValid | services/internal/minio/minio.go:359-382 | the prefixes of every video pass the safety check of the delete |
| PrefixDelete.SegmentsMakeValidPrefix | services/internal/minio/minio.go:359-382 | the check accepts every path of at least two ordinary segments |
| PrefixDelete.PartitionDeleteBatches | services/internal/minio/minio.go:298-314 | the batches in order are exactly the objects, none is empty and none is over the size |
| PrefixDelete.ListIncompleteUploads | services/internal/minio/minio.go:245-296 | it succeeds exactly if the markers advance up to a last page, and then has all uploads below the prefix and no other |
| PrefixDelete.BelowExactly | services/internal/minio/minio.go:245-296 | of what is listed exactly the uploads below the prefix are kept, as often as listed |
| PrefixDelete.ListedExactly | services/internal/minio/minio.go:245-296 | an upload is listed exactly if it is on a page before which no page was the last |
| PrefixDelete.AdvancesExactly | services/internal/minio/minio.go:284-294 | the listing ends exactly if there is a last page and no page before it returns the marker it was asked for with |
| CachePurger.GenerationsTellTheTruth | infra/nginx/cache-purger/main.go:399-420 | over every run of one process no video waits more than two generations, a converged one was in the snapshot of an error-free sweep, and converged means exactly that its generation is over and the last sweep did not fail |
| CachePurger.CleanSweepConverges | infra/nginx/cache-purger/main.go:628-655 | the second error-free sweep that holds a video converges it whatever failed in between, the first one exactly if its generation had come |
| CachePurger.OneSweepOrTwo | infra/nginx/cache-purger/main.go:399-420 | a video registered during a sweep needs one more sweep if that one succeeds and two if it fails |
| CachePurger.ConvergedCanRegress | infra/nginx/cache-purger/main.go:657-681 | a run in which a converged video is retrying again |
| CachePurger.StepKeepsInv | infra/nginx/cache-purger/main.go:399-681 | every critical section keeps the relation of generations, snapshots and records |
| CachePurger.RunsKeepInv | infra/nginx/cache-purger/main.go:399-681 | so every run of a process from its start has it |
| CachePurger.AcknowledgedIsFinal | infra/nginx/cache-purger/main.go:387-466 | after any acknowledged revocation, over crashes and restarts of all replicas, mounted or not: a guard admits the video exactly if that process does not know it, its first look finds no tombstone, and its second finds a directory; and a first look at the shared volume finds the tombstone if it went there |
| CachePurger.NoSpellingPasses | infra/nginx/cache-purger/main.go:306-323 | the same for the whole guard: an accepted spelling of such a video passes exactly in that case |
| CachePurger.RevokedIsForbidden | infra/nginx/cache-purger/main.go:306-323 | a request for a video that is known to be revoked, or whose tombstone is found, or for no video, is forbidden; while the root is no directory at either look nothing unknown passes |
| CachePurger.KnownStaysKnown | infra/nginx/cache-purger/main.go:399-420 | what a process knows to be revoked it knows until it dies |
| CachePurger.StartedOnTheVolumeKnows | infra/nginx/cache-purger/main.go:143-235 | a process that starts with the volume mounted knows everything acknowledged there |
| CachePurger.RestartWithoutVolumeAdmits | infra/nginx/cache-purger/main.go:432-466 | a legal run: revoked and acknowledged on the volume, restarted while it is not mounted, admitted |
| CachePurger.RevokedWithoutVolumeIsLost | infra/nginx/cache-purger/main.go:387-397 | a legal run: revoked and acknowledged without the volume, admitted by a replica that has it |
| CachePurger.OwnDirectoryIsKept | infra/nginx/cache-purger/main.go:791-814 | a tombstone written into the directory of a container is loaded again by a restart in that container, and by no new one |
| CachePurger.ReplicasConverge | infra/nginx/cache-purger/main.go:503-655 | a tombstone on the volume can be taken up by any replica between its sweeps, and two sweeps without errors make it converge there |
| CachePurger.StrangeFilesAreRefused | infra/nginx/cache-purger/main.go:750-814 | where something else stands in the place of a tombstone the video cannot be revoked and no process starts |
| CachePurger.MoveKeepsInv | infra/nginx/cache-purger/main.go:387-397 | tombstones on the volume and acknowledged revocations are never lost, and every process keeps its own invariant |
| CachePurger.WorldRunsKeepInv | infra/nginx/cache-purger/main.go:387-466 | the same over every run of all replicas |
| CachePurgerCalls.TombstoneDirectory.WriteTombstone | infra/nginx/cache-purger/main.go:750-789 | acknowledged exactly if the first look answers and the tombstone is there or written to the disk, by this process or found to be by another; failure loses no tombstone and adds none but this; a strange file in its place is refused |
| CachePurgerCalls.Purger.RegisterRevoked | infra/nginx/cache-purger/main.go:399-420 | the fields change as the registration step says and the record returned is the stored one |
| CachePurgerCalls.Purger.Revoke | infra/nginx/cache-purger/main.go:387-397 | acknowledged exactly if not cancelled and the tombstone of whichever directory is at the root is acknowledged, and then the video is registered; failure leaves memory as it was, and without the volume nothing gets there |
| CachePurgerCalls.Purger.LookupRevoked | infra/nginx/cache-purger/main.go:432-466 | the answer is a function of memory and of what is at the root at the two looks, and what is found is registered |
| CachePurgerCalls.Purger.LoadTombstones | infra/nginx/cache-purger/main.go:791-814 | succeeds exactly if every tombstone is sound, and registers all up to the first that is not |
| CachePurgerCalls.LoadRegistersAll | infra/nginx/cache-purger/main.go:791-814 | a load without unsound tombstones has registered every one |
| CachePurgerCalls.Purger.FinishSweepSuccess | infra/nginx/cache-purger/main.go:628-655 | the loop over the snapshot does to the fields what the success step says |
| CachePurgerCalls.Purger.FinishSweepFailure | infra/nginx/cache-purger/main.go:657-681 | likewise for failure, for records whose generation has come |
| CachePurgerCalls.Purger.ReconcileOnce | infra/nginx/cache-purger/main.go:503-626 | with registrations arriving during the sweep: each way through it is one run of the machine, success means the walk was error-free and removed exactly the snapshot's files, with time for the whole tree and nothing in its way it succeeds, and no sweep removes anything else |
| CachePurgerCalls.SweptCleanMeansGone | infra/nginx/cache-purger/main.go:503-626 | after such a sweep a file behind no symlink was removed exactly if its key names a video of the snapshot |
| CacheWalker.Walker.Next | infra/nginx/cache-purger/main.go:838-889 | each call yields exactly the first thing that is left to report, says complete exactly if nothing is left, and has less to do afterwards |
| CacheWalker.Walker.constructor | infra/nginx/cache-purger/main.go:828-836 | a new walker has the whole tree to report |
| CacheWalker.Walker.ReadMore | infra/nginx/cache-purger/main.go:838-866 | reading a batch, leaving a directory or failing changes what is left by nothing but the failure |
| CacheWalker.Walker.TakeEntry | infra/nginx/cache-purger/main.go:868-886 | an entry is reported, skipped or descended into so that what is left shrinks by exactly its visits |
| CacheWalker.FilesVisitedOnce | infra/nginx/cache-purger/main.go:838-889 | a walk over a tree with distinct names finds no path twice |
| CacheWalker.WalkFindsExactlyTheFiles | infra/nginx/cache-purger/main.go:838-889 | the walk finds a path exactly if a regular file is there that is behind no symlink and no directory that cannot be opened |
| CacheWalker.WalkReportsExactlyTheTroubles | infra/nginx/cache-purger/main.go:838-889 | it reports an error at a path exactly if, behind no symlink, a directory does not open or its listing breaks off there, or an entry cannot be stat'ed |
| CacheWalker.Sweep | infra/nginx/cache-purger/main.go:549-626 | however the work is cut into batches: a completed sweep has the tree's errors, files and removals, a cut-short one removed a prefix of them, and enough looks complete it |
| CacheWalker.ReconcileFile | infra/nginx/cache-purger/main.go:572-603 | one file is counted, and removed exactly if its key names a snapshot video and removal works |
| CacheWalker.SweepRemovesExactly | infra/nginx/cache-purger/main.go:549-626 | an error-free sweep removes a file exactly if its key names a snapshot video, and no sweep at all removes any other |
| CacheWalker.CleanExactly | infra/nginx/cache-purger/main.go:549-626 | a whole sweep is error-free exactly if nothing in the tree is in its way and it gets done with every file that lies in it |
| CacheWalker.CleanSweepGetsAll | infra/nginx/cache-purger/main.go:549-626 | so an error-free sweep removes, of all files behind no symlink, exactly those whose key names a snapshot video |
| CachePaths.ReadersAgreeExactly | infra/nginx/cache-purger/main.go:707-729 | for every accepted URI, method, host and range the sweep names the guard's video, unless the raw id segment has a percent sign, and then it names none |
| CachePaths.NeverAnotherVideo | infra/nginx/cache-purger/main.go:707-729 | the sweep never takes a response of one video for another's |
| CachePaths.SpacedSpellingIsMissed | infra/nginx/cache-purger/main.go:910-944 | for every video there is an accepted spelling whose cached response the sweep does not recognize |
| CachePaths.AcceptedShape | infra/nginx/cache-purger/main.go:910-925 | before decoding an accepted URI is /hls/, the default encoding of a segment that reads as the video, a slash and more |
| CachePaths.GuardAcceptsExactly | infra/nginx/cache-purger/main.go:910-925 | the guard takes a URI for a video exactly if its path is the default encoding of three or more ordinary segments without backslash, the first "hls" and the second naming the video |
| CachePaths.AssetsAreAccepted | infra/nginx/cache-purger/main.go:910-925 | so every asset of every video is read as that video, with or without a query |
| CachePaths.CleanIsCanonical | infra/nginx/cache-purger/main.go:910-925 | the comparison with the clean path accepts exactly paths without empty, dot and dot-dot segments |
| CachePaths.UnescapeEscape | infra/nginx/cache-purger/main.go:911-918 | decoding undoes the default encoding of every path |
| CachePaths.EscapedText | infra/nginx/cache-purger/main.go:911-918 | the default encoding writes plain bytes and percent signs only, and a percent sign exactly if something was escaped |
| CachePaths.KeyPath | infra/nginx/nginx.conf:180 | the first slash of the cache key is the first of the request URI |
| CachePaths.SweepReads | infra/nginx/cache-purger/main.go:719-729 | every path the sweep attributes to a video has the prefix, a first segment that names it, and a slash behind it |
| GpuLeases.RunsKeepInv | services/transcoder/app/gpu_registry.py:181-267 | over every run of the scripts, with time passing and children dying, the sessions in use never exceed the largest capacity used, and leases and weights have the same ids |
| GpuLeases.RunsOneByOne | services/transcoder/app/gpu_registry.py:181-267 | a run is its script calls one after the other |
| GpuLeases.ScriptKeepsInv | services/transcoder/app/gpu_registry.py:181-267 | each script alone keeps that |
| GpuLeases.OnlyAcquireRevives | services/transcoder/app/gpu_registry.py:212-230 | no script but a new acquisition makes a dead lease live |
| GpuLeases.ExpiredStaysDead | services/transcoder/app/gpu_registry.py:212-230 | over every run without that acquisition an expired or released lease stays dead |
| GpuLeases.DeadChildrenMakeRoom | services/transcoder/app/gpu_registry.py:181-210 | a lease nobody refreshes blocks no request after its time to live |
| GpuLeases.SumWithout | services/transcoder/app/gpu_registry.py:196-200 | the sum of sessions does not depend on the order of the loop |
| GpuLeases.LeaseStore.Acquire | services/transcoder/app/gpu_registry.py:181-210 | granted exactly if the live sessions and the request fit; the two keys change together |
| GpuLeases.LeaseStore.Refresh | services/transcoder/app/gpu_registry.py:214-231 | refreshed exactly if the lease is live; a dead one is removed |
| GpuLeases.LeaseStore.Release | services/transcoder/app/gpu_registry.py:233-244 | this lease goes, no other does, and the answer says if it was there |
| GpuLeases.LeaseStore.Usage | services/transcoder/app/gpu_registry.py:246-267 | the answer is the sessions of unexpired leases |
| GpuLeases.LeaseStore.Used | services/transcoder/app/gpu_registry.py:196-200 | the loop adds up all leases, one session for a missing weight |
| GpuLeases.WorkerRegistrations | services/transcoder/app/gpu_registry.py:819-889 | exactly the GPUs with a live worker, each with the smallest capacity a live worker claims, at least one |
| GpuLeases.Pool.TryEach | services/transcoder/app/gpu_registry.py:665-708 | with other workers' scripts running in between: one round grants on the first candidate that it does not see without room, or a call fails, or every candidate was seen without room at some moment of the round; one call for each candidate the request can fit |
| GpuLeases.Pool.TryOne | services/transcoder/app/gpu_registry.py:665-690 | one candidate is skipped because the request never fits, granted, or seen without room, or the call fails |
| GpuLeases.Pool.AcquireGpu | services/transcoder/app/gpu_registry.py:620-712 | with other workers' scripts running in between: a GPU is returned only with the lease live there for all sessions and on no other GPU, and every candidate before it was seen without room; no failing call oversubscribes any; with all calls answered, none is returned only if every candidate was without room at some moment, after as many rounds as there was time for; undisturbed, at the beginning already |
| GpuLeases.Pool.ClaimGpu | services/transcoder/app/gpu_registry.py:633-666 | a request for no session is refused; a preferred GPU is the only candidate, otherwise all with a live worker are; undisturbed, each candidate before the granted one had no room, and none is granted only if none had any |
| EncodePlan.BuildChunks | services/transcoder/app/transcode_safety.py:36-45 | the loop ends and its slices are positive, at most the step, and tile the duration |
| EncodePlan.SlicesTile | services/transcoder/app/tasks/pipeline.py:165-174 | consecutive slices leave no gap and no overlap and end exactly at the duration |
| EncodePlan.TilesCoverOnce | services/transcoder/app/transcode_safety.py:36-45 | every moment of the timeline lies in exactly one slice |
| EncodePlan.AdaptiveChunkDuration | services/transcoder/app/tasks/pipeline.py:177-195 | for every base, maximum and positive duration the slice length is at least half a minute, and at most the maximum unless that is less |
| EncodePlan.AdaptiveAims | services/transcoder/app/tasks/pipeline.py:177-195 | between the base and the maximum a slice has whole minutes, within half a minute of a thirtieth of the duration; it is at one of the two ends only if the aim is |
| EncodePlan.RoundIsNearest | services/transcoder/app/tasks/pipeline.py:177-195 | rounding gives a nearest integer, the even one of two |
| EncodePlan.BoundedCpuPlan | services/transcoder/app/transcode_safety.py:48-101 | each refusal happens exactly for its reason, for every setting `float` can read, NaN and infinities included; a plan has one rendition per group, highest first, slices of at most five minutes that tile the duration, and at most 4096 tasks |
| EncodePlan.ReplacementIsOneSlice | services/transcoder/app/tasks/transcode_video.py:1119-1150 | replacing a slice never cuts it again, so the subdivision error cannot occur |
| GpuRouting.PartitionGpuGroups | services/transcoder/app/tasks/pipeline.py:129-157 | with live GPUs all renditions are routed once, each group is pinned to a live GPU and within its capacity, and GPU loads differ by at most one; without, one CPU group |
| GpuRouting.LiveGpuCapacities | services/transcoder/app/tasks/pipeline.py:103-126 | exactly the GPUs with a worker, each with the smallest safe capacity of its rows |
| GpuRouting.RoutedWell | services/transcoder/app/tasks/pipeline.py:129-157 | the routing of any ordered list over any ascending GPUs has these three properties |
| GpuRouting.DealtIsAll | services/transcoder/app/tasks/pipeline.py:145-148 | the round robin puts every rendition into exactly one bucket |
| GpuRouting.EvenShares | services/transcoder/app/tasks/pipeline.py:145-148 | two buckets of the round robin differ by one element at most |
| GpuRouting.Deal | services/transcoder/app/tasks/pipeline.py:145-148 | bucket k gets every n-th rendition from the k-th on |
| GpuRouting.Route | services/transcoder/app/tasks/pipeline.py:150-157 | the loop over GPUs yields the pieces of each bucket in order |
| Splitting.Split | services/transcoder/app/tasks/pipeline.py:150-157 | the offset loop cuts a list into the maximal consecutive pieces |
| Splitting.PiecesJoin | services/transcoder/app/tasks/pipeline.py:150-157 | the pieces together are the list |
| Reassembly.TimelinePreserved | services/transcoder/app/tasks/transcode_video.py:1949-1994 | for distinct heights, every pattern of lost slices and every order of results, the concat input of a height is exactly its slices in time order, and no other height has input |
| Reassembly.PlanCompletes | services/transcoder/app/tasks/pipeline.py:457-473 | so every planned rendition comes back whole and nothing else comes back |
| Reassembly.GpuPipeline | services/transcoder/app/tasks/pipeline.py:457-473 | from rendition list and GPU status to concat: all tasks have slices in (0, 300] seconds and every rendition is complete |
| Reassembly.CpuPipeline | services/transcoder/app/tasks/transcode_video.py:1071-1116 | there is a CPU canvas exactly if the plan is not refused; it has at most 4096 single-rendition tasks with slices in (0, 300] seconds, and every rendition is complete |
| Reassembly.ReplacementKeepsOutputs | services/transcoder/app/tasks/transcode_video.py:1119-1172 | replacing a lost slice by CPU deliveries loses no output, adds none and keeps job and index |
| Reassembly.ReplacementsMerge | services/transcoder/app/tasks/transcode_video.py:1164-1172 | if all replacements deliver, the merge accepts them |
| Reassembly.MergeChunkResults | services/transcoder/app/tasks/transcode_video.py:1878-1916 | accepted exactly if all parts are of this job and slice, no height comes twice and the heights are the expected ones; the result is highest first |
| Reassembly.HeightsAreExactly | services/transcoder/app/tasks/transcode_video.py:1904-1909 | the height check compares the heights as sets |
| Reassembly.ConcatInputs | services/transcoder/app/tasks/transcode_video.py:1949-1994 | exactly the heights that came back get an input: their items in slice order |
| Reassembly.GroupResult | services/transcoder/app/tasks/transcode_video.py:1949-1964 | the grouping loop appends each rendition of a result to its height and to no other |
| Reassembly.TimelinePlaysTheWholeDuration | services/transcoder/app/tasks/transcode_video.py:1949-1994 | such an input plays the whole duration once |
| Reassembly.SumPermutes | services/transcoder/app/tasks/transcode_video.py:1949-1964 | what results contribute does not depend on their order |
| Sorting.Sort | services/transcoder/app/tasks/transcode_video.py:1970-1972 | the sort orders by the key and keeps all elements |
| Sorting.OnlyOneOrder | services/transcoder/app/tasks/transcode_video.py:1970-1972 | distinct keys leave one possible order |
| Sorting.SortIsStable | services/transcoder/app/transcode_safety.py:66-73 | elements with equal keys stay in the order they came in |
| Promotion.Disk.Promote | services/transcoder/app/tasks/transcode_video.py:697-765 | it returns exactly if the attempt is valid, the second validation passes and the loop gets through, and then exactly the delivered heights are new; a failure without a stuck rename leaves the start exactly if the looks its rollback takes see; otherwise no directory is lost or copied and each old canonical one is canonical or a backup; one thing going wrong, be it a rename, a look or the second validation, is always undone completely |
| Promotion.Disk.Deliver | services/transcoder/app/tasks/transcode_video.py:677-765 | with the cleanup of the attempt: the new set is in place; or every old directory still exists, exactly unless the process lived on, the look at the backups failed and one of them was not back |
| Promotion.Disk.CleanupAttemptRoot | services/transcoder/app/tasks/transcode_video.py:677-694 | the attempt stays exactly if the backups can be looked at and there is one or listing them fails |
| Promotion.LastCopyCanGo | services/transcoder/app/tasks/transcode_video.py:677-694 | a state a promotion leaves behind in which everything exists, and from which a cleanup with a failing first look removes the last copy, whether or not listing works |
| Promotion.Disk.PromoteAll | services/transcoder/app/tasks/transcode_video.py:720-741 | wherever the loop stops, the promoted heights are a prefix of the list and at most one more has made room; which one, and which faults and looks are left, is given by the inputs |
| Promotion.Disk.PromoteOver | services/transcoder/app/tasks/transcode_video.py:722-741 | a height with a canonical directory is replaced, restored, or left with its old directory among the backups |
| Promotion.Disk.Rollback | services/transcoder/app/tasks/transcode_video.py:749-760 | if its renames succeed, the start is restored exactly if the looks at all promoted heights see; with working renames it does not raise exactly if no old directory comes back to a place that only looks free; in any case everything is still kept |
| Promotion.Disk.UndoOne | services/transcoder/app/tasks/transcode_video.py:750-759 | one height goes back in two renames, each of which may fail without loss, and a turn that does not raise has put it back exactly if its looks see |
| Promotion.Disk.RestoreOld | services/transcoder/app/tasks/transcode_video.py:757-759 | the old directory comes back if it is seen and its place is free |
| Promotion.MissingLooksMiss | services/transcoder/app/tasks/transcode_video.py:749-760 | for every height there are looks with which a rollback neither raises nor sees everything |
| Promotion.UndoneInPart | services/transcoder/app/tasks/transcode_video.py:697-765 | a whole promotion with these looks fails as if undone, and the directories are not where they were |
| Promotion.Disk.Validate | services/transcoder/app/tasks/transcode_video.py:623-648 | accepts exactly non-empty lists of distinct heights that are all there and sound |
| Promotion.DuringKeeps | services/transcoder/app/tasks/transcode_video.py:720-760 | every state on the way keeps all directories, the old ones in reach |
| Promotion.TakesPlace | services/transcoder/app/tasks/transcode_video.py:731-732 | the promoting rename and its reverse are inverse |
| Promotion.MakesRoom | services/transcoder/app/tasks/transcode_video.py:727-729 | so are the backup rename and its reverse |
| TrackIdentity.AssignTrackIdentities | services/transcoder/app/models.py:89-130 | each track gets the first free id of its language and the first free name of its sequence, after the earlier tracks |
| TrackIdentity.IdentitiesAreDistinct | services/transcoder/app/models.py:89-130 | ids are pairwise distinct, and names are under case folding |
| TrackIdentity.IdentitiesAreSafe | services/transcoder/app/models.py:49-64 | each id has the form of a track id and is accepted unchanged later on |
| TrackIdentity.FreeIdentity | services/transcoder/app/models.py:105-110 | the id search ends, at the smallest free suffix, within as many tries as ids are used |
| TrackIdentity.FreeName | services/transcoder/app/models.py:112-118 | the name search ends likewise, although truncation can make a suffixed name equal the requested one |
| TrackIdentity.SuffixedDiffer | services/transcoder/app/models.py:74-77 | suffixed names differ under case folding for different suffixes, however they are truncated |
| TrackIdentity.FixedPoint | services/transcoder/app/models.py:49-64 | an id is accepted unchanged exactly if it has at most 64 characters, for every stream index whose successor has at most 46 digits |
| TrackIdentity.LanguageIsWords | services/transcoder/app/models.py:23-39 | a stored language is a well-formed lower-case tag |
| TrackIdentity.NormalizeLanguage | services/transcoder/app/models.py:23-39 | it never has more than ten characters |
| TrackIdentity.LanguageIsLongestTag | services/transcoder/app/models.py:23-39 | it is the lower-case form of as many whole parts of a valid tag as fit, and und for any other text |
| TrackIdentity.TokenOfLanguage | services/transcoder/app/models.py:42-46 | the path token of a stored language is a track id |
| TrackIdentity.TidyIsQuotable | services/transcoder/app/models.py:67-71 | a sanitized name has no quote, no backslash and no white space other than spaces |
| TrackIdentity.SqueezingJoinsWords | services/transcoder/app/models.py:42-71 | for names and for path tokens: the words stay and every run of other characters between them becomes one separator |
| TrackIdentity.AttributeKeepsWords | services/transcoder/app/models.py:67-71 | a sanitized name has exactly the words of the text, quotes and backslashes replaced, up to 255 characters |
| TrackIdentity.PlainNamesStay | services/transcoder/app/models.py:67-71 | a name of ASCII words with single blanks, no quote and no backslash is kept as it is |
| TrackIdentity.UntitledNames | services/transcoder/app/models.py:80-86 | the first untitled track of a language is named by its code in capitals, each later one by its own number behind it |
| TrackIdentity.OutputPathKeepsIdentity | services/transcoder/app/models.py:138-160 | the id is recovered from every packaged output path, whatever mix of slashes it is written with |
| TrackIdentity.RawPathKeepsIdentity | services/transcoder/app/models.py:138-160 | from a raw path, likewise, it is recovered exactly if it does not start with the kind and an underscore |
| TrackIdentity.AudioLanguageIsAmbiguous | services/transcoder/app/models.py:138-160 | of two tracks tagged "audio" the second is assigned audio_2, and its raw path reads as track 2 |
| Multipart.ValidateMultipartParts | services/upload/internal/handler/multipart.go:675-701 | accepts exactly the lists numbered from one, with etags, of full parts and a last one that is not empty, that add up to the size |
| Multipart.ChosenSizeFits | services/upload/internal/handler/multipart.go:152-163 | the chosen part size needs at most 10000 parts for every size |
| Multipart.ChosenIsLeast | services/upload/internal/handler/multipart.go:152-163 | it is the default while that is enough, and otherwise the least multiple of the minimum that is |
| Multipart.AlignTo | services/upload/internal/handler/multipart.go:703-712 | the least multiple that is not smaller, for sizes that are not negative; a multiple that is not positive changes nothing |
| Multipart.CountBounds | services/upload/internal/handler/multipart.go:646-659 | the file lies between one part less and the count of full parts |
| Multipart.CountIsUnique | services/upload/internal/handler/multipart.go:646-659 | no other count does |
| Multipart.LayoutAssembles | services/upload/internal/handler/multipart.go:661-673 | parts of the expected sizes add up to exactly the file |
| Multipart.AssembledIsLayout | services/upload/internal/handler/multipart.go:661-701 | parts that add up to the file have the expected sizes |
| Multipart.ExpectedPartsAreAccepted | services/upload/internal/handler/multipart.go:152-163 | for every size and the part size chosen for it, parts of the expected sizes pass and add up to the file, at most 10000 of them |
| Multipart.ListMultipartParts | services/upload/internal/handler/multipart.go:600-628 | paging ends and returns all stored parts in order |
| Multipart.Upload.EnsureMultipartCompleted | services/upload/internal/handler/multipart.go:471-528 | success means the object is stored at exactly the size of the session, whichever calls failed or lied; the object changes exactly if the completion of a correct list of parts takes effect, and it succeeds exactly if it then sees the object at that size; a mismatch is answered exactly for a stored object of another size that is seen, or a listed set of parts that does not assemble to the session |

## Left out

- JobLockCalls.WorkVolume.JobLock: POSIX branch only; the Windows and process-local branches have no shared mode.
- JobLockCalls.WorkVolume.Reap: the listing of lock files is given, the two marker prefixes are not distinguished, and no call fails for other reasons than a lock, so the count of errors is left out.
- JobLocks.NobodyHoldsAnUnlinkedLock: a process that asks again for a lock file it holds is not modelled; no task does (LockOrder.TasksAcquireInOrder).
- Fencing.RunsKeepInv: runs without the metadata `PATCH /status` handler, which writes any status.
- Fencing.RunsMoveForward: a deleted video takes its jobs with it, so the statement ends there.
- Fencing.EligibleIsFenced: the age thresholds and the orphan marker are inputs; cursor paging of the reaper and the removal of the directory are not modelled.
- FencingCalls.Database.WatchdogTick: one candidate per call; the verdict that a job is stuck is an input.
- Publication.AtomicPublish: the MIME types and the size of the upload pool are left out; uploads of a stage run in any order.
- Playlists.ValidatePresentation: lines and URIs come tokenized; `I-FRAME` and session-data tags of a master are ignored, as the validator does.
- DeletionSaga.RunsKeepInv: one video; the end of a session record's life is a step that may happen at any time; an event may be published more than once and is identified by session and size.
- DeletionCalls.Deployment.CleanupResources: the three prefixes are cleaned one after another in any order, not in parallel, and the Redis state is not modelled.
- PrefixDelete.ListIncompleteUploads: pages are given; objects have no versions.
- CachePurgerCalls.Purger.ReconcileOnce: times, counters of purged files and the wake-up channel are left out; files do not change between listing and removal except by vanishing.
- CacheWalker.Sweep: reading a cache header is one outcome per file; finding the key inside the header is not modelled.
- CachePaths.ReadersAgreeExactly: URIs are byte strings; what precedes the URI in the cache key has no slash, which nginx ensures for hosts.
- GpuLeases.Pool.AcquireGpu: waiting between rounds is a number of rounds; heartbeat threads, process ids and the unmanaged lease of a disabled registry are left out.
- EncodePlan.BuildChunks: durations are reals; rounding of sums of floats is not modelled.
- Reassembly.GpuPipeline: an encode delivers a complete directory or its slice is lost; codecs, bitrates and retries of a task are left out.
- Promotion.Disk.CleanupAttemptRoot: what it may remove it removes whole; a removal that fails halfway would leave more, never less.
- Promotion.Disk.Promote: directories are never empty, and only the promotion touches them, which the rendition lock ensures.
- TrackIdentity.AssignTrackIdentities: case folding is a parameter that works character by character; language values come stripped of white space; upper-casing is ASCII.
- TrackIdentity.IdentitiesAreSafe: for lists whose length, doubled, has at most 53 digits; longer ids would be replaced, as FixedPoint says.
- TrackIdentity.FixedPoint: a longer stream index could make up an id of more than 64 characters, and that id is what comes back.
- Multipart.ListMultipartParts: parts are not uploaded while they are listed.
- FFmpeg command building, probing and process control: foreign processes.
- HTTP routing, JSON, authentication, token signing, analytics, metrics and logging: no coordination in them.
- RabbitMQ, Celery, Redis, MinIO and PostgreSQL themselves: steps with the guarantees named under Assumptions.
- Frontend, player and scripts.
- Progress percentages and stage labels: a cache that no guarantee depends on.
