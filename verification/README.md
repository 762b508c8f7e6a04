# Verified model of hambone's state stores

hambone serves Apply, Delete and Get requests for Instances (a manifest `kustomization.yaml` plus extra
files) out of an etcd cluster or a git repository, with any number of servers running side by side. Apply
and Delete first open a client and take a lock, compare the stored manifest with the OldInstance the caller
sent, write the files to the local disk, let `kustomize` or `kubectl` accept or reject them, then commit to
the store and finally run their cleanup functions in reverse. This project models both adapters and proves
what callers rely on: no update from a stale read, nothing stored that was not validated, no foreign
instance touched, no lock left behind, and, where the code falls short of that, the exact condition under
which it does.

## How it is built

| file | contents |
|---|---|
| `Paths.dfy` | names as paths of components, and what a name given below a directory resolves to |
| `Requests.dfy` | requests, servers, files; what their writes leave on disk |
| `Keys.dfy` | instance, file and lock keys; the key space read as one entry a name; the range delete |
| `LockQueue.dfy` | the key queue behind an etcd mutex, and what a range delete does to it |
| `EtcdMachine.dfy` | any number of requests as programs over a shared key space, locks and disks |
| `EtcdInvariant.dfy` | the invariant of every reachable state |
| `EtcdRefinement.dfy` | an atomic compare-and-set store, and the refinement proof |
| `EtcdHistory.dfy` | theorems about whole runs: lost updates, validation, partial commits |
| `EtcdAnswers.dfy` | which answer a request gets: each has its reason in the store or in a failed call |
| `EtcdProgress.dfy` | no deadlock, bounded runs, locks given back, the answer of a request left alone |
| `EtcdLocks.dfy` | the machine over the real lock queues: quiet runs are runs of the machine |
| `EtcdLostUpdate.dfy` | a run whose range delete is not quiet, in which an update is lost |
| `EtcdAdapter.dfy` | the adapter's methods on objects, with other requests acting between any two calls |
| `Cleanup.dfy` | the in-place reversal and the cleanup loop |
| `Paging.dfy` | start and stop, the etcd getter, walking a list page by page |
| `Trimming.dfy` | the git adapter's comparison up to surrounding white space |
| `GitRepo.dfy` | one clone as worktree, index and history beside a remote; each git command as an operation |
| `GitLaws.dfy` | when rollback restores, what a commit has achieved, what a request does that nothing stops |
| `GitAdapter.dfy` | the git adapter's methods on a clone |
| `GitReplicas.dfy`, `GitChain.dfy` | servers with clones of one remote under the global lock; the chain theorem |
| `GitPhases.dfy` | the replica machine's commands of an Init in a row are the adapter's Init |
| `GitProgress.dfy` | the replica machine left alone: one request's code as one operation on a clone and the remote |
| `GitSettled.dfy` | which failures leave a clone unfit for the next request, and that no others do |
| `FileTree.dfy` | a file system: writing an instance directory and walking it to load it back |
| `GitListing.dfy` | the git getter: all instance directories in order, or one by name |

In the etcd machine a request is a program: `NextCall` says which call its code makes at each control point,
`Serve` what a call does, `Resume` how the code goes on with the reply. A call succeeds, fails without a
trace, or fails after it took effect. The classes of `EtcdAdapter.dfy` have the methods of the source; each
of their calls goes through `World.Perform`, which lets any other requests act first, and each method is
proved to move its request through that same machine, so the theorems on runs are theorems on this code.
In the git model every command is one operation on a clone and the remote; the classes of `GitAdapter.dfy`
run the commands in a row, and the replica machine runs the same commands interleaved.

## Hypotheses

Each is a predicate, a type or a rule of a machine's steps, named here in full.

- Clean names (`CleanNames`): an instance name has no `/` and is not a proper prefix of another live name.
- Disks apart (`DisksApart`): requests for different instances on one server write different places. File names
  are resolved as the code resolves them, so this can fail only for names with `..` or for an instance named
  `.`, `..` or the empty string; `EtcdMachine.InsideKeepsApart` proves it for requests whose files resolve
  below their own directories. The git theorems do not need it.
- Lease alive: a lease runs out only when its request is done (the machine's `Expire`); the commit carries no
  fencing, so a lease lost in the middle of a commit is outside every theorem here.
- A call that reported an error has taken effect by then or never will.
- Etcd mutexes are exclusive. The comment at `pkg/state/etcd/etcd.go:442` says that lock keys must not collide
  with storage keys, but the prefix delete at `pkg/state/etcd/etcd.go:391` covers the deleter's own lock key. The
  machine gives the deleter's mutex away at that moment, as the code does. `EtcdLocks` runs the same code over
  the real queues, where the delete wipes every lock key in its range: `EtcdLocks.QuietRunIsRun` proves the
  hypothesis of every run in which each range delete finds no other lock key in its range, and
  `EtcdLostUpdate.DeleteLosesAnUpdate` gives a run of the other kind in which an update is lost.
  `LockQueue.HarmlessExactlyWhenAlone` says which deletes break the exclusion of the other sessions.
- The key space starts without file keys whose instance key is missing (`NoOrphanFiles`).
- Git: the global etcd lock key is set, and a request that pulls finds its clone settled, that is, with nothing
  staged and no commit that the remote lacks (`Behaved`). Anything may fail anywhere otherwise.
  `GitSettled.UntaintedIsBehaved` proves it of every run in which no request pulls on a clone on which a push
  was lost, a commit failed over more than a staged manifest, or a rollback failed before. What goes wrong
  without it is proved too (`GitLaws.RetryAfterLostPush`, `GitLaws.FailedDeleteStaysStaged`).
- Git: Commit is called with `skipCommit` off, as the server does (`pkg/instances/server.go:26`). This is of the
  interleaved machine only; `GitAdapter.GitUpdater.Commit` covers both.
- Untracked files of a clone have no white space in their paths, so that the shell passes each to `test` as one
  word (`pkg/state/git/git.go:605-606`).

## Where the code falls short

- With a file whose name resolves to `kustomization.yaml` among its files, such as `./kustomization.yaml`, an
  etcd Apply validates that file's contents and stores the manifest's (`EtcdHistory.ValidatedIsCommitted`,
  `EtcdHistory.ShadowedManifest`). Two names for one path differ in the same way
  (`EtcdHistory.FilesOnDiskExactly`, `EtcdHistory.TwoNamesOnePath`), and files of earlier requests stay on the
  disk for later tools to see (`EtcdHistory.DiskPlaces`, `EtcdHistory.LeftoversSeen`).
- A Delete opens its own mutex: two requests that wait behind it can enter together, and one can succeed by
  replacing a manifest that it did not name (`LockQueue.WaitersEnterTogether`,
  `EtcdLostUpdate.DeleteLosesAnUpdate`).
- A git Apply of a new instance into an otherwise clean clone reports success and adds, commits and pushes
  nothing, because the diff against HEAD does not see untracked files (`GitLaws.NewInstanceDropped`).
- After a lost push a retry pushes nothing, and yet reports success if it passes the comparison, which is then
  with the lost commit's manifest: without OldInstance, or with one that matches the request's own manifest. A
  retry that names the replaced manifest is refused (`GitLaws.RetryAfterLostPush`; the repository's
  `README.md:117` admits the false success).
- The etcd list shows every stored file and every lock key as if it were an instance (`Paging.ListExactly`).
- A rollback after a failed `git commit` leaves a new manifest in place, and where anything of the instance
  is tracked a rollback leaves the request's other changed files (`GitLaws.RollbackAfterFailedCommit`,
  `GitLaws.RollbackAfterFailedAdd`). When git cannot list files, a rollback removes the whole directory
  (`GitLaws.FailedListingRemovesAll`).

## Model

| member | source | states |
|---|---|---|
| Keys.StripInvertsInstanceKey | pkg/state/etcd/etcd.go:428-438 | stripping the prefix gives back the name, for every string |
| Keys.StoredLayout | pkg/state/etcd/etcd.go:428-443 | an entry is read off the keys hambone_instance_NAME and hambone_instance_NAME/FILE, and a lock key is hambone_instance_NAME-lock/LEASE |
| Keys.InstanceKeyInjective | pkg/state/etcd/etcd.go:428-430 | two names share an instance key only if they are equal, over all strings |
| Keys.FileKeyInjective | pkg/state/etcd/etcd.go:432-434 | a file key determines both the slash-free instance name and the file name, whatever the file name |
| Keys.InstanceKeysApart | pkg/state/etcd/etcd.go:428-443 | no instance key of a slash-free name is a file key or a lock key |
| Keys.FileLockCollision | pkg/state/etcd/etcd.go:432-443 | a file key is a lock key exactly when its instance is the locked one's name plus "-lock" and the file is named like the lease |
| Keys.DeleteRangeReach | pkg/state/etcd/etcd.go:384-395 | a range delete reaches another name's keys iff its name is a prefix of that name, and its lock keys iff it is a prefix of that name plus "-lock" |
| Keys.OwnLockKeyInDeleteRange | pkg/state/etcd/etcd.go:391 | contrary to the intent stated at line 442, a delete always covers its own lock keys |
| Keys.DeleteCoversOwnMutexOnly | pkg/state/etcd/etcd.go:391 | among clean names the lock keys a delete covers are those of its own mutex and no other |
| Keys.PutInstanceEntry | pkg/state/etcd/etcd.go:255 | putting a manifest replaces it in its own entry, keeps the files stored there, and changes no other entry |
| Keys.PutFileEntry | pkg/state/etcd/etcd.go:259-267 | putting a file changes that file of its own entry and nothing of any other |
| Keys.DeleteRangeEntry | pkg/state/etcd/etcd.go:384-395 | a delete removes its own entry whole and leaves every entry that its name does not prefix |
| Keys.DeleteRangeFrame | pkg/state/etcd/etcd.go:384-395 | another live entry survives a delete exactly when the deleted name is not a prefix of its name |
| Keys.DeleteRangeExact | pkg/state/etcd/etcd.go:384-395 | in a store of keys of clean names and of their mutexes, a delete removes exactly the instance key and file keys of its own name and the lock keys of its own mutex |
| LockQueue.ValidRun | vendor/go.etcd.io/etcd/clientv3/concurrency/mutex.go:42-88 | over every run of joins, entries and leaves at most one session holds a mutex |
| LockQueue.ExclusionSurvivesExactly | pkg/state/etcd/etcd.go:391 | after the range delete of a session that holds its mutex, all other sessions exclude each other over every later run iff the delete covered no lock key but its own |
| LockQueue.HarmlessExactlyWhenAlone | pkg/state/etcd/etcd.go:384-396 | among clean names that is so iff nobody else holds or awaits the deleted instance's mutex |
| LockQueue.DeleteOpensItsOwnMutex | pkg/state/etcd/etcd.go:384-396 | a deleter that holds its mutex always opens it: some continuation has two holders |
| LockQueue.WaitersEnterTogether | pkg/state/etcd/etcd.go:440-462 | after a delete two sessions queued for its mutex can both enter, one after the other, without any leave |
| Paths.FilePathIsReal | pkg/state/etcd/etcd.go:233 | whatever a name contains, joining it to a real directory gives a path of real names, without dots or empty components |
| Paths.FilePathOfReal | pkg/state/git/git.go:286 | a name that is itself such a path leads to just that place below the directory |
| Paths.DotsDoNotCount | pkg/state/etcd/etcd.go:233 | empty and dot components of a name lead nowhere, from any directory |
| Paths.NamesDescend | pkg/state/etcd/etcd.go:233 | a component that is a name descends into it, and two dots behind it climb back |
| Paths.RootIsTop | pkg/state/etcd/etcd.go:233 | two dots do not climb out of the root |
| EtcdMachine.InsideKeepsApart | pkg/instances/instances.go:109-114 | requests for different instances, whose files all resolve below their own directories, never write the same place of a disk |
| EtcdMachine.DotReachesOthers | pkg/instances/instances.go:109-114 | an instance named "." with a file NAME/FILE writes a place of the instance NAME |
| EtcdInvariant.OwnStep | pkg/state/etcd/etcd.go:176-396 | a step of a request keeps all that is claimed of it: who holds its mutex, what its entry holds and what its writes have left on disk at each control point, which cleanups are registered |
| EtcdInvariant.LockedOut | pkg/state/etcd/etcd.go:197-221 | while one request is in the critical section of a name, no step of another request under that name changes the environment |
| EtcdInvariant.OtherNameView | pkg/state/etcd/etcd.go:255-263 | a step of a request never changes mutex, entry or written places of a request under another clean name, even on the same disk, as long as their places are apart |
| EtcdInvariant.NoOrphansStep | pkg/state/etcd/etcd.go:248-271 | no step leaves a file key whose instance key is gone |
| EtcdInvariant.Reachable | pkg/state/etcd/etcd.go:176-396 | the invariant holds after every legal run of any number of requests |
| EtcdRefinement.LocalRefines | pkg/state/etcd/etcd.go:464-495 | each step of the code is invisible or one atomic action: refusals with their reason true of the store at that moment, compare-and-set at the first put, compare-and-delete at the range delete |
| EtcdRefinement.StepRefines | pkg/instances/instances.go:117-202 | every step of the whole machine is an atomic step of one request on its own entry, or changes nothing of the atomic state |
| EtcdRefinement.RunRefines | pkg/state/etcd/etcd.go:176-396 | every interleaving of any number of Apply and Delete requests is a run of the atomic compare-and-set store from the same initial contents |
| EtcdHistory.HistoryReachable | pkg/state/etcd/etcd.go:248-256 | in every reachable state the log of writes explains the stored manifests, one event a committed request, each with what it found |
| EtcdHistory.NoLostUpdate | pkg/state/etcd/etcd.go:464-495 | a successful request wrote exactly once, and what it overwrote or removed was the latest value and equals the old manifest it named |
| EtcdHistory.SameOldTwice | pkg/state/etcd/etcd.go:488-490 | of two writes that replaced the same old value of one name, some write from the first on and before the second put that value back |
| EtcdHistory.DiskYamlExact | pkg/state/etcd/etcd.go:228-236 | the manifest on disk is the request's own iff the last file whose name resolves to its path, if any, has the same contents |
| EtcdHistory.ToolRunsExactly | pkg/instances/instances.go:135-180 | in every reachable state a request at its commit or past it has had a tool look iff kubectl is on, or kustomize for an Apply |
| EtcdHistory.ValidatedIsCommitted | pkg/instances/instances.go:135-153 | with kubectl on, or kustomize for an Apply, what a committed request stored or removed is what the tool accepted, exactly when no file resolves to the manifest with other contents |
| EtcdHistory.ShadowedManifest | pkg/state/etcd/etcd.go:232-236 | a concrete request with a file named ./kustomization.yaml for which the tool sees other contents than are stored |
| EtcdHistory.ValidatedFiles | pkg/instances/instances.go:135-153 | with kubectl on, or kustomize for an Apply, the directory that a committed request's tool accepted in a whole run holds each of its files there with the contents of the last write |
| EtcdHistory.FilesOnDiskExactly | pkg/state/etcd/etcd.go:232-267 | every file is stored as the tool had it on disk iff different names for one path come with the same contents |
| EtcdHistory.TwoNamesOnePath | pkg/state/etcd/etcd.go:232-267 | of files a and ./a with different contents, the tool has the second's on disk while both are stored |
| EtcdHistory.DiskPlaces | pkg/state/etcd/etcd.go:228-245 | after a run the disks hold files at just the places held at first or written in it, so nothing is ever taken off |
| EtcdHistory.LeftoversSeen | pkg/state/etcd/etcd.go:228-236 | in a run, what a request's tool accepts is just what the request wrote iff no initial file and no file written so far by any request lies elsewhere below its directory |
| EtcdHistory.LoadedManifestHolds | pkg/state/etcd/etcd.go:352-373 | from the locked read to the range delete the stored manifest equals the one loaded, and what `kubectl` reads from disk is that one with the request's own files written over it |
| EtcdHistory.UnexpectedCountOnlyUnguarded | pkg/state/etcd/etcd.go:359-362 | the unexpected-count error only reaches a Delete without OldInstance, which has then not written; behind a successful existence check under the lock it cannot occur |
| EtcdHistory.RefusedNeverWrites | pkg/instances/instances.go:135-148 | no step, in the whole run, of a request that ends refused by name check, comparison or tool changes the key space |
| EtcdHistory.LastFileWins | pkg/state/etcd/etcd.go:259-267 | of duplicate file names the last put decides |
| EtcdHistory.OtherFilesKept | pkg/state/etcd/etcd.go:259-267 | stored files the request does not name are kept, and none appears |
| EtcdHistory.CommitLeavesPrefix | pkg/state/etcd/etcd.go:248-271 | an ended commit leaves the entry its first put found with some prefix of the put sequence applied, all of it on success |
| EtcdHistory.OthersPreserved | pkg/state/etcd/etcd.go:384-395 | in every reachable state no step of one request changes another instance's manifest or files |
| EtcdProgress.AtMostOneLock | pkg/state/etcd/etcd.go:197-221 | a request never holds two mutexes |
| EtcdProgress.NoDeadlock | pkg/instances/instances.go:117-202 | while some request is unfinished a successful step or a lease expiry is possible |
| EtcdProgress.StuckIsDone | pkg/instances/instances.go:123-133 | a state without enabled actions has every request answered and no mutex held |
| EtcdProgress.RunsAreBounded | pkg/instances/instances.go:117-202 | no run is longer than a measure of its first state, so every run ends |
| EtcdProgress.OneReleaseSuffices | pkg/state/etcd/etcd.go:207-221 | one effective unlock or session close frees the request's mutex for the rest of the run, even if the other one fails |
| EtcdProgress.ReleasesInOrder | pkg/state/etcd/etcd.go:176-221 | in every reachable state the releases still to run are the first few of client, context, session, unlock; all in the critical section, none at the end |
| EtcdProgress.UndisturbedAnswers | pkg/instances/instances.go:117-202 | left alone with its mutex free and every call working, a request comes to the answer it is heading for |
| EtcdProgress.AnsweredAlone | pkg/state/etcd/etcd.go:464-495 | from its start, left alone, a request gets exactly the answer that names, stored entry and old instance call for: mismatch, no key, missing, differing or success |
| EtcdAnswers.FailuresShow | pkg/instances/instances.go:117-202 | after every run a request that is cleaning up or done answers with a failure iff one of its own calls before its cleanup failed |
| EtcdAnswers.AnyCallCanFail | pkg/state/etcd/etcd.go:176-396 | any call that leaves the process may fail in any state, with no effect or with that of success, and then stops a request that is not cleaning up |
| EtcdAnswers.AnswerHasReason | pkg/state/etcd/etcd.go:289-495 | every answer of a run goes back to one call of its request at which store, mutex, names or tool gave just that reason |
| EtcdLocks.ForemostIsFree | vendor/go.etcd.io/etcd/clientv3/concurrency/mutex.go:42-88 | over queues in order, whoever may enter finds no holder of its mutex |
| EtcdLocks.QStepSimulates | pkg/state/etcd/etcd.go:384-462 | over the real queues each quiet action, whoever else waits, is one action of the etcd machine or invisible to it |
| EtcdLocks.QuietRunIsRun | pkg/state/etcd/etcd.go:384-462 | every run in which each range delete finds no other lock key in its range is a run of the etcd machine, to the same key space, disks, requests and log |
| EtcdLocks.NoLostUpdateInQueues | pkg/state/etcd/etcd.go:464-495 | in such a run a successful request wrote exactly once, over the latest value, which is the old manifest it named |
| EtcdLostUpdate.DeleteLosesAnUpdate | pkg/state/etcd/etcd.go:384-396 | from any key space with the instance in it there is a run of a Delete and three Applies queued behind it, among any other requests, in which one succeeds by replacing a manifest other than the one it named |
| EtcdAdapter.RecordedIsRun | pkg/instances/instances.go:117-202 | what the objects record of the calls they made is a legal run of the machine that ends in the present state |
| EtcdAdapter.StoreClient.OldInstanceEqualsCurrentInstanceIfSet | pkg/state/etcd/etcd.go:464-495 | nil leaves the request past its check, an error is the machine's reason and only cleanup is left |
| EtcdAdapter.StoreClient.TakeLock | pkg/state/etcd/etcd.go:197-221 | the mutex is held and its three releases are registered in this order, or the session is closed and the request stopped |
| EtcdAdapter.StoreClient.WriteFiles | pkg/state/etcd/etcd.go:228-236 | the loop writes manifest and files as the machine does, whatever others do in between |
| EtcdAdapter.StoreClient.PutFiles | pkg/state/etcd/etcd.go:259-271 | the loop puts every file as the machine does, or stops at the first error |
| EtcdAdapter.StoreClient.BuildIfEnabled | pkg/instances/instances.go:135-148 | nil leads to the commit, a rejection ends the request without one |
| EtcdAdapter.StoreClient.RunCleanupFuncs | pkg/state/etcd/etcd.go:404-426 | from any registered prefix, the reversed loop runs all releases of the machine, keeps the answer, leaves the request done, and reports an error iff one of those releases failed |
| EtcdAdapter.EtcdUpdater.Init | pkg/state/etcd/etcd.go:176-239 | nil means the request has reached its tool step, an error that it has stopped with that outcome |
| EtcdAdapter.EtcdUpdater.Commit | pkg/state/etcd/etcd.go:248-271 | nil or an error is exactly the machine's outcome of the commit |
| EtcdAdapter.EtcdDeleter.Init | pkg/state/etcd/etcd.go:289-376 | as for the updater, with the check before the lock and the locked read |
| EtcdAdapter.EtcdDeleter.LoadManifest | pkg/state/etcd/etcd.go:352-363 | the object's manifest is the one read under the lock |
| EtcdAdapter.EtcdDeleter.Commit | pkg/state/etcd/etcd.go:384-396 | nil or an error is exactly the machine's outcome of the range delete |
| EtcdAdapter.NamesEquate | pkg/instances/instances.go:383-391 | an error exactly in the machine's mismatch case, with the request answered |
| EtcdAdapter.Apply | pkg/instances/instances.go:117-164 | the error returned is the outcome of a finished request of the machine, with all cleanups run; the old instance is dropped on success only |
| EtcdAdapter.Delete | pkg/instances/instances.go:167-202 | the same for a delete |
| EtcdAdapter.SuccessMeans | pkg/instances/instances.go:150-164 | a nil error from Apply or Delete means one write, over the old instance the caller named |
| EtcdAdapter.ErrorMeans | pkg/instances/instances.go:117-202 | an error from Apply or Delete has its reason at the call where the request stopped, and is a failure iff one of its own calls failed |
| Cleanup.ReverseSlice | pkg/state/etcd/etcd.go:405-409 | the swap loop leaves the exact reverse, for every length |
| Cleanup.ReverseAt | pkg/state/git/git.go:464-469 | the reverse holds at each index the mirror element |
| Cleanup.ReverseKeepsAll | pkg/state/git/git.go:464-469 | nothing is lost or repeated |
| Cleanup.LastAcquiredFirstReleased | pkg/state/etcd/etcd.go:404-413 | what was registered later is run earlier |
| Cleanup.Releaser.RunCleanupFuncs | pkg/state/etcd/etcd.go:273-277 | every registered function runs once in reverse order whatever fails, nothing stays registered, and the result is an error iff some function failed |
| Cleanup.Releaser.RunRepeatedly | pkg/state/git/git.go:336-340 | any number of calls runs each function once |
| Paging.ConvertStartStopToSliceIndexes | pkg/helpers/helpers.go:31-41 | the slice of the result holds exactly the positions from start to stop, counted from one, for every 32-bit input |
| Paging.PageHolds | pkg/state/git/git.go:141-147 | an element is on the page iff its position was asked for, at the place that its position says |
| Paging.PageDefinedExactly | pkg/state/git/git.go:141-147 | the slice expression is in range iff stop is not negative and start is not behind the end of its page |
| Paging.WalkCovers | pkg/state/etcd/etcd.go:122-130 | asking for (1,k), (k+1,2k), ... until a page is short never slices out of range and returns the whole list once, in order |
| Paging.EtcdGetter.Run | pkg/state/etcd/etcd.go:115-132 | the loaded list is the page of the key-values read, or all of them when one name was asked for |
| Paging.LoadedSlices | pkg/state/etcd/etcd.go:115-130 | cutting the loaded list and loading the cut key-values are the same |
| Paging.ListExactly | pkg/state/etcd/etcd.go:108 | in a store of keys of clean names and of their mutexes, all listed names are live instances iff no file is stored and no lock is held or awaited; every live instance is listed |
| Trimming.TrimSpaceIgnoresPadding | pkg/state/git/git.go:263 | manifests that differ in surrounding white space compare equal |
| Trimming.TrimSpaceSplits | pkg/state/git/git.go:412 | only white space at the ends is trimmed, so manifests that compare equal differ in nothing else |
| Trimming.WhiteExactly | pkg/state/git/git.go:263 | the white space trimmed is these 25 characters |
| Trimming.SameTrimmedExactly | pkg/state/git/git.go:263 | two texts trim alike iff both are one text with white space around it |
| Trimming.MatchesExactly | pkg/state/git/git.go:254-266 | a request passes the comparison iff it has no old instance, or its old instance is what is there up to white space around it |
| GitRepo.AddAt | pkg/state/git/git.go:313-317 | staging a directory takes each path below it from the worktree and no other path |
| GitRepo.AddFailsExactly | pkg/state/git/git.go:313-317 | there is nothing to add iff no file is below the directory, tracked or not |
| GitRepo.UnderExactly | pkg/state/git/git.go:313-317 | the paths below a directory are those that continue it |
| GitRepo.RemoveAt | pkg/state/git/git.go:432-437 | git rm takes just the tracked files below the directory off index and disk, and fails iff there are none |
| GitRepo.DiffHeadExactly | pkg/state/git/git.go:306-310 | the diff is empty iff committing all tracked files as they are would change nothing |
| GitRepo.ChecksExactly | pkg/state/git/git.go:595-614 | below the directory, the tracked check says that the tracked files on disk are the index, the untracked check that no others are on disk |
| GitRepo.PullTakes | pkg/state/git/git.go:581-592 | a pull loses no commit and no local change; each path becomes the remote's where the heads differ and stays as it was elsewhere |
| GitRepo.CleanPulls | pkg/state/git/git.go:581-592 | a clone behind the remote without changes of its own in the way always pulls, and then has the remote's tip on disk beside its untracked files |
| GitRepo.PullKeepsIndex | pkg/state/git/git.go:581-592 | a fast-forward over an unstaged clone leaves it unstaged at the remote's history |
| GitLaws.ManifestOfInit | pkg/state/git/git.go:273-290 | the manifest an Init leaves in the worktree is the request's with the request's own files over it |
| GitLaws.InitWrites | pkg/state/git/git.go:273-290 | an Init leaves every file as its last write did, the manifest first, and every other path as it was |
| GitLaws.InsideWritesOnly | pkg/state/git/git.go:273-290 | files whose names resolve below the directory change nothing outside it |
| GitLaws.RollbackNewDir | pkg/state/git/git.go:506-512 | with nothing tracked in the directory, rollback restores the clone iff the request changed nothing outside it |
| GitLaws.RollbackNewManifest | pkg/state/git/git.go:513-518 | with only the manifest untracked, rollback restores the clone iff the request changed no other file |
| GitLaws.RollbackTracked | pkg/state/git/git.go:519-529 | with the manifest tracked, rollback sets manifest and index entry back to HEAD, changes no other path, and fails iff HEAD lacks it |
| GitLaws.RollbackUnstagesExactly | pkg/state/git/git.go:519-529 | after it nothing is staged iff nothing but the manifest was |
| GitLaws.RollbackStaysInside | pkg/state/git/git.go:505-531 | whatever fails in it, a rollback keeps the history and every path outside the directory |
| GitLaws.FailedListingRemovesAll | pkg/state/git/git.go:505-512 | when both listings fail, a rollback removes the directory with its tracked files |
| GitLaws.RollbackAfterFailedAdd | pkg/state/git/git.go:313-317 | after a commit whose add failed the remote is as before, and the clone is as before Init iff the directory was untracked and nothing outside it changed, or the manifest was the only file changed and was not staged |
| GitLaws.RollbackAfterFailedCommit | pkg/state/git/git.go:319-324 | after a commit whose git commit failed the remote is as before, and the clone is as before Init iff the manifest was in HEAD, unstaged, and the only file changed |
| GitLaws.RollbackReports | pkg/state/git/git.go:505-531 | a rollback reports success only if every command that undoes was done, and leaves the worktree alone otherwise |
| GitLaws.SkipCommitStages | pkg/state/git/git.go:313-319 | with skipCommit a change that was seen is staged below the directory and nothing else moves |
| GitLaws.RemoteOnlyGrows | pkg/state/git/git.go:302-456 | from any clone and with any failures, neither commit takes a commit off the remote |
| GitLaws.SuccessMeansPushed | pkg/state/git/git.go:306-333 | after a successful commit local and remote history agree iff the diff found something or they agreed before |
| GitLaws.SuccessMeansAllWorked | pkg/state/git/git.go:306-333 | a commit reports success only if none of its commands failed and its push was answered |
| GitLaws.SuccessMeansStored | pkg/state/git/git.go:306-333 | after a successful commit HEAD holds the manifest iff the diff found something or the manifest was tracked |
| GitLaws.NewInstanceDropped | pkg/state/git/git.go:306-310 | a new instance, with any files, in a clean clone: success with nothing added, committed or pushed, iff no tracked file is changed |
| GitLaws.CommitConfined | pkg/state/git/git.go:313-328 | the new commit changes only paths of its instance iff nothing else was staged |
| GitLaws.FailureKeepsRemote | pkg/state/git/git.go:313-330 | a failed commit leaves the remote as it was unless the push arrived unanswered |
| GitLaws.RetryAfterLostPush | README.md:117 | after a lost push of a request that changed something tracked below its directory, no retry brings its commit to the remote, and a retry reports success iff its OldInstance, if any, matches the manifest that the lost commit left |
| GitLaws.DeleteMeansRemoved | pkg/state/git/git.go:427-456 | a successful delete has pushed one commit, without any path of the instance and with every other staged path |
| GitLaws.DeleteKeepsOthers | pkg/state/git/git.go:432-437 | whatever fails in it, a delete takes off the disk only tracked files below its directory |
| GitLaws.FailedDeleteStaysStaged | pkg/state/git/git.go:432-445 | a delete whose commit fails leaves its removal staged |
| GitLaws.WorkingApply | pkg/state/git/git.go:208-334 | with every command working on a clean clone, an Apply whose old instance is current pushes one commit with just its own files if it changes tracked files, some of it below its directory; without a tracked change it succeeds with nothing pushed; otherwise it fails and the remote stays |
| GitLaws.WorkingDelete | pkg/state/git/git.go:352-456 | with every command working on a clean clone, a Delete succeeds iff the instance is there and its old instance is current, and then pushes one commit without any of its files |
| GitAdapter.EnsureCleanFile | pkg/state/git/git.go:595-614 | no error iff the directory has neither tracked nor untracked changes and both commands worked, and which error otherwise |
| GitAdapter.CompareOldInstance | pkg/state/git/git.go:254-266 | no error iff the caller's manifest matches the file read, and which error otherwise |
| GitAdapter.TakeGlobalLock | pkg/state/git/git.go:212-242 | the configured lock is taken and its three releases registered, or an error and no registration |
| GitAdapter.GitUpdater.Init | pkg/state/git/git.go:208-293 | which error in which state of the pulled clone and with which failure, what is registered for cleanup, and the worktree with a prefix of the writes, all of them on nil |
| GitAdapter.GitUpdater.WriteInstance | pkg/state/git/git.go:273-290 | the loop writes manifest and files in order and stops after a prefix on an error |
| GitAdapter.GitUpdater.Rollback | pkg/state/git/git.go:505-531 | the commands of the three branches, any of which may fail, leave the clone of the specification and its error |
| GitAdapter.GitUpdater.Commit | pkg/state/git/git.go:302-334 | clone, remote and error are those of the whole-commit specification, for every pattern of command failures |
| GitAdapter.GitDeleter.Init | pkg/state/git/git.go:352-418 | each error exactly in its case of the pulled clone, which is otherwise untouched, and what is registered for cleanup |
| GitAdapter.GitDeleter.Commit | pkg/state/git/git.go:427-456 | clone, remote and error are those of the whole-delete specification |
| GitChain.OwnStep | pkg/state/git/git.go:208-456 | a command of the lock holder, failed or not, keeps its claims and lengthens the remote by at most one linked commit |
| GitChain.GetterHarmless | pkg/state/git/git.go:106-112 | a getter's pull cannot change the lock holder's clone once the holder has pulled |
| GitChain.InvStep | pkg/state/git/git.go:208-456 | every step of requests, getters and leases over which a pulling request finds its clone settled keeps the whole-system invariant |
| GitChain.RunKeepsOrder | pkg/state/git/git.go:208-456 | it holds after every such run, lost and unanswered pushes included, and the remote only grows |
| GitChain.RemoteIsOneChain | pkg/state/git/git.go:302-334 | each commit the remote gained is by a different request, replaces contents that are its old instance up to white space around it, and differs from the tree before in just the files the Apply writes below its directory, or for a delete in all files there being gone; a tool passed that directory iff one is switched on |
| GitChain.SuccessIsPushed | pkg/state/git/git.go:306-333 | at every success that is not a cancelled Delete, local and remote agree, hold what was written to every file HEAD knew (or nothing of a deleted instance), and the remote gained one such commit unless the diff was empty |
| GitChain.RejectedNeverCommits | pkg/instances/instances.go:135-186 | with a tool on, a request whose tool fails gets the error (a Delete none) and no commit of the remote is ever its own, in the whole run |
| GitChain.UpdaterCommitPhase | pkg/state/git/git.go:302-334 | with skipCommit off, the interleaved machine's commands in a row are the adapter's Commit |
| GitChain.DeleterCommitPhase | pkg/state/git/git.go:427-456 | the same for the deleter |
| GitPhases.UpdaterInitPhase | pkg/state/git/git.go:244-293 | whatever the updater's Init may report and leave, from the pull to the last write, the machine's commands under the same failures report and leave |
| GitPhases.DeleterInitPhase | pkg/state/git/git.go:388-418 | the machine's commands in a row reach the tool step iff the deleter's Init reports no error, and leave the same clone |
| GitProgress.PullAlone | pkg/state/git/git.go:208-456 | from the pull on, the machine's commands of a request, all working and with nobody in between, are one operation on its clone and the remote, and give the lock back |
| GitProgress.LeftAlone | pkg/instances/instances.go:117-202 | from any state with the lock free, a request can run to its answer: an error without touching anything if its old instance has another name, otherwise that of the whole operation |
| GitSettled.TidyCommand | pkg/state/git/git.go:302-334 | a command that does not lose a push, fail a commit over more than the manifest, or fail a rollback leaves the clone settled or on its way there |
| GitSettled.UntaintedIsBehaved | pkg/state/git/git.go:208-456 | a run over settled clones in which no request pulls after such a failure on its own clone is behaved, and clones without such a failure are settled whenever nobody is busy on them |
| FileTree.MakeDirsLaws | pkg/helpers/helpers.go:50-56 | directories are made iff no file is on the way; just those on the path appear and no file changes |
| FileTree.PutLaws | pkg/helpers/helpers.go:58-62 | a file is written iff its parent is a directory and its path is none; it alone changes |
| FileTree.MakeAllLaws | pkg/state/git/git.go:281-283 | making a directory by any name, dots included, changes no file and removes no directory |
| FileTree.MakeAllExactly | pkg/state/git/git.go:281-283 | for any name, dots included, just the places on its way become directories, and it fails iff a file is on the way |
| FileTree.WriteAtExactly | pkg/state/git/git.go:286-288 | a write works iff every step before the last leads to a directory and the last names a place that is none |
| FileTree.WriteAtResolved | pkg/state/git/git.go:286-288 | a write that works writes exactly the path that the name resolves to |
| FileTree.SaveFinds | pkg/state/git/git.go:273-290 | after a save, for any names, every path of the file system holds its last write, or what was there before |
| FileTree.WalkSorted | pkg/state/git/git.go:548-572 | the walk lists files in strict component-wise order |
| FileTree.WalkFinds | pkg/state/git/git.go:548-572 | the walk lists exactly the files there are, with their contents |
| FileTree.LessExactly | pkg/state/git/git.go:548 | one name is before another iff it is a proper prefix or has the smaller character where they part |
| FileTree.PathLessExactly | pkg/state/git/git.go:548 | the same for paths, component by component |
| FileTree.LoadExactly | pkg/state/git/git.go:533-579 | loading any directory of real names reads the manifest, fails iff that is a directory or there is none to look in, and gives just the other files with name, parent and contents, in walk order |
| FileTree.CanonicalExactly | pkg/state/git/git.go:569 | a loaded file's directory is what stands before the last slash of its name, or "." |
| FileTree.WalkOrderIsNotStringOrder | pkg/state/git/git.go:548 | "a/x" is walked before "a-b" although it is the greater string |
| FileTree.LoadAfterSave | pkg/state/git/git.go:533-579 | what a save into a vacant directory loads as, for any names: the last-written manifest and, in walk order, every other last-written canonical file |
| FileTree.RoundTripExactly | pkg/state/git/git.go:268-290 | an instance saved into a vacant directory loads back as the same manifest and the same files, in walk order, iff names are distinct and canonical, none is the manifest's, and each directory is its name's parent |
| FileTree.SaveSucceeds | pkg/state/git/git.go:268-290 | canonical files can all be saved iff no file's path lies below another's |
| FileTree.TreeRoundTrip | pkg/state/git/git_integration_test.go:175-183 | distinct restorable files are all saved and come back unchanged, in walk order, iff no path lies below another; otherwise the save fails |
| FileTree.InstanceDir.WriteInstance | pkg/state/git/git.go:268-290 | the loop's result is that of the save function; a collision leaves just a prefix of the writes |
| FileTree.InstanceDir.LoadInstance | pkg/state/git/git.go:533-579 | the loop's result is that of the load function, skipping the manifest |
| GitListing.GitGetter.Run | pkg/state/git/git.go:114-150 | the loops collect the whole listing, cut to the page, or the one instance asked for, or fail where a load does |
| GitListing.ListedExactly | pkg/state/git/git.go:131-139 | a listing names every directory with a manifest, with its contents, and nothing else |
| GitListing.ListedInOrder | pkg/state/git/git.go:115 | it is strictly sorted by name |
| GitListing.ListingFailsExactly | pkg/state/git/git.go:543-546 | it fails iff some directory's manifest cannot be read |
| GitListing.NamedAgreesWithListing | pkg/state/git/git.go:119-130 | asking for one name finds what the listing has of it, and fails iff that directory has no readable manifest, which a listing passes over when it is missing |

## Left out

- gRPC server, flags, example client and web server, generated code: transport and user interface only.
- `PipeKustomizeToKubectl` and `KustomizeBuild` are one call that reads the instance directory and accepts or rejects; process plumbing is not part of this model.
- EtcdAdapter.Apply: does not model `LoadStatuses`, whose result goes into the response only and whose error is ignored.
- Timeouts and network errors are possible failures of any call; time itself is not part of this model.
- The internals of etcd (consensus, leases, watches) and of git (object store, merges, ignored files) are not part of this model; a pull of diverged histories counts as failed, and a clone whose history has diverged is not settled.
- EtcdMachine: a lease lost before its request is done is excluded, in EtcdLocks too.
- EtcdAdapter.StoreClient.TakeLock: creating the session and locking its mutex are one call, and so is closing the session after either failed.
- EtcdAdapter.StoreClient.WriteFiles: does not model the directories that a write makes; a write that collides with a file or directory is one that fails (FileTree models both).
- GitAdapter.GitUpdater.WriteInstance: does not model the directories, for the same reason.
- GitAdapter.EnsureCleanFile: does not model the shell's splitting of a path with white space into several words for `test`.
- GitAdapter.GitUpdater.Init: does not model the release of the etcd client, which the source never registers.
- GitAdapter: its classes run without other requests in between; they are tied to the interleaved machine by the phase lemmas of GitPhases and GitChain, the lock apart.
- GitReplicas: a rollback is one step with failures of its own, and so is the cleanup.
- GitChain.RemoteIsOneChain: says nothing of runs in which a request pulls on a clone that is not settled, because such a clone pushes or commits what earlier requests left on it.
- GitChain.SuccessIsPushed: says nothing of files that HEAD did not know when the diff is empty, because the code drops them (`GitLaws.NewInstanceDropped`), nor of a cancelled Delete, which returns nil in the source.
- GitProgress.LeftAlone: says what one run is, with every command working and nobody in between.
- GitLaws.RetryAfterLostPush: says nothing of a request that changes tracked files outside its own directory, nor of a retry whose own diff fails.
- GitChain.UpdaterCommitPhase: does not cover `skipCommit`, with which the server never calls it; `GitAdapter.GitUpdater.Commit` does.
- FileTree.SaveSucceeds: says only of canonical files whether they can be saved; what a save of any other names leaves, when it works, is said by the other laws.
- FileTree: symbolic links and permissions.
- GitRepo: file and directory collisions inside a worktree are modelled in FileTree only.
- Paging.EtcdGetter.Run: requires a page in range, since the source panics elsewhere (`Paging.PageDefinedExactly` says where).
- GitListing.GitGetter.Run: as for the etcd getter, the page is required to be in range; the pull before it is `GitChain.GetterHarmless`.
- Init of the engines, the unfinished `etcdTemplatesGetter.Run`, and the git templates getter, which is the listing without paging.
- The contents of error messages, debug output and log lines.
