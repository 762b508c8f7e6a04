/**
 * The git adapter's own code on one clone: methods that run one command after the other, each
 * proved to compute the whole-operation function whose laws GitLaws states. Any command may fail
 * for reasons of its own; ghost results say which did.
 */
module GitAdapter {
  import opened Paths
  import opened Requests
  import opened GitRepo
  import opened Trimming
  import opened Cleanup

  datatype Error =
    | LockFailed
    | PullFailed
    | NotFound
    | TrackedUncommitted
    | UntrackedUncommitted
    | InstanceNoExist
    | ReadFailed
    | OldDiffers
    | WriteFailed

  class Remote {
    var history: History
  }

  /** A clone on disk and the commands run in it. */
  class Repo {
    var worktree: Tree
    var index: Tree
    var history: History
    const remote: Remote

    constructor (c: Clone, remote: Remote)
      ensures Value() == c && this.remote == remote
    {
      worktree, index, history, this.remote := c.worktree, c.index, c.history, remote;
    }

    function Value(): Clone
      reads this
    {
      Clone(worktree, index, history)
    }

    method Set(c: Clone)
      modifies this
      ensures Value() == c
    {
      worktree, index, history := c.worktree, c.index, c.history;
    }

    method GitPull() returns (ok: bool, ghost failed: bool)
      modifies this
      ensures ok <==> !failed && Pull(old(Value()), remote.history).Some?
      ensures Value() == if ok then Pull(old(Value()), remote.history).value else old(Value())
    {
      var f: bool := *;
      failed := f;
      var pulled := Pull(Value(), remote.history);
      ok := !f && pulled.Some?;
      if ok {
        Set(pulled.value);
      }
    }

    method GitAdd(dir: Path) returns (ok: bool, ghost failed: bool)
      modifies this
      ensures ok <==> !failed && Add(old(Value()), dir).Some?
      ensures Value() == if ok then Add(old(Value()), dir).value else old(Value())
    {
      var f: bool := *;
      failed := f;
      var added := Add(Value(), dir);
      ok := !f && added.Some?;
      if ok {
        Set(added.value);
      }
    }

    method GitRemove(dir: Path) returns (ok: bool, ghost failed: bool)
      modifies this
      ensures ok <==> !failed && RemoveTracked(old(Value()), dir).Some?
      ensures Value() == if ok then RemoveTracked(old(Value()), dir).value else old(Value())
    {
      var f: bool := *;
      failed := f;
      var removed := RemoveTracked(Value(), dir);
      ok := !f && removed.Some?;
      if ok {
        Set(removed.value);
      }
    }

    method GitCommit(request: nat) returns (ok: bool, ghost failed: bool)
      modifies this
      ensures ok <==> !failed && CommitIndex(old(Value()), request).Some?
      ensures Value() == if ok then CommitIndex(old(Value()), request).value else old(Value())
    {
      var f: bool := *;
      failed := f;
      var committed := CommitIndex(Value(), request);
      ok := !f && committed.Some?;
      if ok {
        Set(committed.value);
      }
    }

    method GitPush() returns (ok: bool, ghost fate: PushFate)
      modifies remote
      ensures (remote.history, ok) == FinishPush(Value(), old(remote.history), fate)
    {
      var f: PushFate := *;
      fate := f;
      var (history', pushed) := FinishPush(Value(), remote.history, f);
      remote.history := history';
      ok := pushed;
    }

    /** A command that only looks or undoes, and that may fail. */
    method Runs() returns (ok: bool, ghost failed: bool)
      ensures ok <==> !failed
    {
      ok := *;
      failed := !ok;
    }

    method WriteFile(path: Path, contents: string) returns (ok: bool)
      modifies this`worktree
      ensures worktree == if ok then old(worktree)[path := contents] else old(worktree)
    {
      ok := *;
      if ok {
        worktree := worktree[path := contents];
      }
    }
  }

  // ----------------------------------------------------------------------- checks

  /** Which steps of an Init fail for reasons of their own. */
  datatype InitFaults = InitFaults(lock: bool, pull: bool, diff: bool, others: bool, read: bool)

  const INIT_WORKS := InitFaults(false, false, false, false, false)

  predicate FoundTracked(c: Clone, dir: Path, f: InitFaults) {
    f.diff || !DiffDirClean(c, dir)
  }

  predicate FoundUntracked(c: Clone, dir: Path, f: InitFaults) {
    f.others || !NoUntracked(c, dir)
  }

  /** Ensures that the instance directory has no tracked and no untracked changes. */
  method EnsureCleanFile(repo: Repo, dir: Path, ghost f0: InitFaults) returns (err: Option<Error>, ghost f: InitFaults)
    ensures f == f0.(diff := f.diff, others := f.others)
    ensures err == Some(TrackedUncommitted) <==> FoundTracked(repo.Value(), dir, f)
    ensures err == Some(UntrackedUncommitted) <==>
              !FoundTracked(repo.Value(), dir, f) && FoundUntracked(repo.Value(), dir, f)
    ensures err.None? <==> !f.diff && !f.others && CleanDir(repo.Value(), dir)
  {
    var ok;
    ghost var failed;
    ok, failed := repo.Runs();
    f := f0.(diff := failed, others := false);
    if !ok || !DiffDirClean(repo.Value(), dir) {
      err := Some(TrackedUncommitted);
      return;
    }
    ok, failed := repo.Runs();
    f := f.(others := failed);
    if !ok || !NoUntracked(repo.Value(), dir) {
      err := Some(UntrackedUncommitted);
      return;
    }
    err := None;
  }

  method CompareOldInstance(repo: Repo, r: Request, dir: Path, ghost f0: InitFaults)
    returns (err: Option<Error>, ghost f: InitFaults)
    ensures f == f0.(read := f.read)
    ensures err == Some(InstanceNoExist) <==> r.oldInstance.Some? && ManifestPath(dir) !in repo.worktree
    ensures err == Some(ReadFailed) <==> r.oldInstance.Some? && ManifestPath(dir) in repo.worktree && f.read
    ensures err == Some(OldDiffers) <==>
              ManifestPath(dir) in repo.worktree && !f.read && !NamesCurrent(r, At(repo.worktree, ManifestPath(dir)))
    ensures err.None? <==> (r.oldInstance.Some? ==> !f.read) && NamesCurrent(r, At(repo.worktree, ManifestPath(dir)))
  {
    f := f0.(read := false);
    if r.oldInstance.Some? {
      if ManifestPath(dir) !in repo.worktree {
        err := Some(InstanceNoExist);
        return;
      }
      var ok;
      ghost var failed;
      ok, failed := repo.Runs();
      f := f.(read := failed);
      if !ok {
        err := Some(ReadFailed);
        return;
      }
      var contents := repo.worktree[ManifestPath(dir)];
      SameTrimmedExactly(r.oldInstance.value.yaml, contents);
      if TrimSpace(r.oldInstance.value.yaml) != TrimSpace(contents) {
        err := Some(OldDiffers);
        return;
      }
    }
    err := None;
  }

  // ------------------------------------------------------------------------- lock

  datatype Release = CancelContext | CloseSession | Unlock

  function Resources(funcs: seq<Func<Release>>): (rs: seq<Release>)
    ensures |rs| == |funcs| && forall i :: 0 <= i < |funcs| ==> rs[i] == funcs[i].resource
  {
    seq(|funcs|, i requires 0 <= i < |funcs| => funcs[i].resource)
  }

  /** Takes the global lock if one is configured and registers its three releases, of which any may fail but the first. */
  method TakeGlobalLock(configured: bool, cleanup: Releaser<Release>, ghost f0: InitFaults)
    returns (err: Option<Error>, ghost f: InitFaults)
    modifies cleanup
    ensures f == f0.(lock := f.lock)
    ensures err == if configured && f.lock then Some(LockFailed) else None
    ensures cleanup.ran == old(cleanup.ran)
    ensures Resources(cleanup.cleanupFuncs)
         == Resources(old(cleanup.cleanupFuncs)) + if configured && err.None? then [CancelContext, CloseSession, Unlock] else []
  {
    f := f0.(lock := false);
    if configured {
      var ok: bool := *;
      f := f0.(lock := !ok);
      if !ok {
        err := Some(LockFailed);
        return;
      }
      var closeFails: bool, unlockFails: bool := *, *;
      cleanup.Register(Func(CancelContext, false));
      cleanup.Register(Func(CloseSession, closeFails));
      cleanup.Register(Func(Unlock, unlockFails));
    }
    err := None;
  }

  // ---------------------------------------------------------------------- updater

  /** The worktree once the first k of an Init's writes are done: the manifest, then the files. */
  function WrittenSoFar(t: Tree, dir: Path, r: Request, k: nat): Tree
    requires k <= |r.files| + 1
  {
    if k == 0 then t else t + Writes(dir, r.yaml, r.files, k - 1)
  }

  /** What an Init that got past its pull has checked and done. */
  ghost predicate InitResult(before: Clone, after: Clone, r: Request, dir: Path, err: Option<Error>, f: InitFaults, k: nat) {
    var manifest := At(before.worktree, ManifestPath(dir));
    var clean := !f.diff && !f.others && CleanDir(before, dir);
    && k <= |r.files| + 1
    && after == before.(worktree := WrittenSoFar(before.worktree, dir, r, k))
    && (err.None? <==> k == |r.files| + 1)
    && (k > 0 ==> err.None? || err.value.WriteFailed?)
    && (err == Some(TrackedUncommitted) <==> FoundTracked(before, dir, f))
    && (err == Some(UntrackedUncommitted) <==> !FoundTracked(before, dir, f) && FoundUntracked(before, dir, f))
    && (err == Some(InstanceNoExist) <==> clean && r.oldInstance.Some? && manifest.None?)
    && (err == Some(ReadFailed) <==> clean && r.oldInstance.Some? && manifest.Some? && f.read)
    && (err == Some(OldDiffers) <==> clean && manifest.Some? && !f.read && !NamesCurrent(r, manifest))
    && (err.None? || err.value.WriteFailed? <==> clean && (r.oldInstance.Some? ==> !f.read) && NamesCurrent(r, manifest))
  }

  class GitUpdater {
    const repo: Repo
    const r: Request
    const request: nat
    const instanceDir: Path
    const globalLock: bool
    const cleanup: Releaser<Release>

    constructor (repo: Repo, r: Request, request: nat, globalLock: bool)
      ensures this.repo == repo && this.r == r && this.request == request && this.globalLock == globalLock
      ensures instanceDir == r.Dir() && fresh(cleanup) && cleanup.cleanupFuncs == [] && cleanup.ran == []
    {
      this.repo, this.r, this.request, this.instanceDir, this.globalLock := repo, r, request, r.Dir(), globalLock;
      cleanup := new Releaser<Release>();
    }

    /** Lock, pull, check clean, compare, write. */
    method Init() returns (err: Option<Error>, ghost f: InitFaults, ghost k: nat)
      modifies repo, cleanup
      ensures err == Some(LockFailed) <==> globalLock && f.lock
      ensures err == Some(PullFailed) <==> !(globalLock && f.lock) && (f.pull || Pull(old(repo.Value()), repo.remote.history).None?)
      ensures err == Some(LockFailed) || err == Some(PullFailed) ==> repo.Value() == old(repo.Value())
      ensures err != Some(LockFailed) && err != Some(PullFailed) ==>
                InitResult(Pull(old(repo.Value()), repo.remote.history).value, repo.Value(), r, instanceDir, err, f, k)
      ensures Resources(cleanup.cleanupFuncs) == Resources(old(cleanup.cleanupFuncs))
                + if globalLock && err != Some(LockFailed) then [CancelContext, CloseSession, Unlock] else []
    {
      k := 0;
      err, f := TakeGlobalLock(globalLock, cleanup, INIT_WORKS);
      if err.Some? {
        return;
      }
      var ok;
      ghost var failed;
      ok, failed := repo.GitPull();
      f := f.(pull := failed);
      if !ok {
        err := Some(PullFailed);
        return;
      }
      err, f := EnsureCleanFile(repo, instanceDir, f);
      if err.Some? {
        return;
      }
      err, f := CompareOldInstance(repo, r, instanceDir, f);
      if err.Some? {
        return;
      }
      err, k := WriteInstance();
    }

    method WriteInstance() returns (err: Option<Error>, ghost k: nat)
      modifies repo`worktree
      ensures k <= |r.files| + 1 && repo.worktree == WrittenSoFar(old(repo.worktree), instanceDir, r, k)
      ensures if k == |r.files| + 1 then err == None else err == Some(WriteFailed)
    {
      k := 0;
      ghost var before := repo.worktree;
      var ok := repo.WriteFile(ManifestPath(instanceDir), r.yaml);
      if !ok {
        err := Some(WriteFailed);
        return;
      }
      k := 1;
      assert before[ManifestPath(instanceDir) := r.yaml] == before + map[ManifestPath(instanceDir) := r.yaml];
      var j := 0;
      while j < |r.files|
        invariant j <= |r.files| && k == j + 1
        invariant repo.worktree == before + Writes(instanceDir, r.yaml, r.files, j)
      {
        var path := FilePath(instanceDir, r.files[j].name);
        assert (before + Writes(instanceDir, r.yaml, r.files, j))[path := r.files[j].contents]
            == before + Writes(instanceDir, r.yaml, r.files, j)[path := r.files[j].contents];
        ok := repo.WriteFile(path, r.files[j].contents);
        if !ok {
          err := Some(WriteFailed);
          return;
        }
        j, k := j + 1, k + 1;
      }
      err := None;
    }

    method Rollback() returns (ok: bool, ghost f: UndoFaults)
      modifies repo
      ensures (repo.Value(), ok) == GitRepo.Rollback(old(repo.Value()), instanceDir, f)
    {
      f := UNDO_WORKS;
      var file := ManifestPath(instanceDir);
      var listed, ran;
      ghost var failed;
      listed, failed := repo.Runs();
      f := f.(listFile := failed);
      if !listed || file !in repo.index {
        listed, failed := repo.Runs();
        f := f.(listDir := failed);
        ran, failed := repo.Runs();
        f := f.(first := failed);
        if !ran {
          return false, f;
        }
        if !listed || !TrackedUnder(repo.Value(), instanceDir) {
          repo.Set(RemoveDir(repo.Value(), instanceDir));
        } else {
          repo.Set(RemoveFile(repo.Value(), file));
        }
      } else {
        ran, failed := repo.Runs();
        f := f.(first := failed);
        if !ran {
          return false, f;
        }
        repo.Set(Reset(repo.Value(), file));
        ran, failed := repo.Runs();
        f := f.(second := failed);
        var checkedOut := Checkout(repo.Value(), file);
        if !ran || checkedOut.None? {
          return false, f;
        }
        repo.Set(checkedOut.value);
      }
      return true, f;
    }

    method Commit(skipCommit: bool) returns (ok: bool, ghost f: Faults)
      modifies repo, repo.remote
      ensures Result(repo.Value(), repo.remote.history, ok)
           == UpdaterCommit(old(repo.Value()), old(repo.remote.history), instanceDir, request, skipCommit, f)
    {
      f := Faults(false, false, false, Pushed, UNDO_WORKS);
      var done, undone;
      ghost var failed, fate, undo;
      done, failed := repo.Runs();
      f := f.(diff := failed);
      if done && DiffHeadClean(repo.Value()) {
        return true, f;
      }
      done, failed := repo.GitAdd(instanceDir);
      f := f.(add := failed);
      if !done {
        undone, undo := Rollback();
        f := f.(undo := undo);
        return false, f;
      }
      if !skipCommit {
        done, failed := repo.GitCommit(request);
        f := f.(commit := failed);
        if !done {
          undone, undo := Rollback();
          f := f.(undo := undo);
          return false, f;
        }
        done, fate := repo.GitPush();
        f := f.(push := fate);
        if !done {
          undone, undo := Rollback();
          f := f.(undo := undo);
          return false, f;
        }
      }
      return true, f;
    }
  }

  // ---------------------------------------------------------------------- deleter

  class GitDeleter {
    const repo: Repo
    const r: Request
    const request: nat
    const instanceDir: Path
    const globalLock: bool
    const cleanup: Releaser<Release>

    constructor (repo: Repo, r: Request, request: nat, globalLock: bool)
      ensures this.repo == repo && this.r == r && this.request == request && this.globalLock == globalLock
      ensures instanceDir == r.Dir() && fresh(cleanup) && cleanup.cleanupFuncs == [] && cleanup.ran == []
    {
      this.repo, this.r, this.request, this.instanceDir, this.globalLock := repo, r, request, r.Dir(), globalLock;
      cleanup := new Releaser<Release>();
    }

    /** Lock, pull, look for the instance, check clean, compare. */
    method Init() returns (err: Option<Error>, ghost f: InitFaults)
      modifies repo, cleanup
      ensures err == Some(LockFailed) <==> globalLock && f.lock
      ensures err == Some(PullFailed) <==> !(globalLock && f.lock) && (f.pull || Pull(old(repo.Value()), repo.remote.history).None?)
      ensures err == Some(LockFailed) || err == Some(PullFailed) ==> repo.Value() == old(repo.Value())
      ensures err != Some(LockFailed) && err != Some(PullFailed) ==>
                var c := repo.Value();
                var manifest := At(c.worktree, ManifestPath(instanceDir));
                var clean := manifest.Some? && !f.diff && !f.others && CleanDir(c, instanceDir);
                && Pull(old(repo.Value()), repo.remote.history) == Some(c)
                && (err == Some(NotFound) <==> manifest.None?)
                && (err == Some(TrackedUncommitted) <==> manifest.Some? && FoundTracked(c, instanceDir, f))
                && (err == Some(UntrackedUncommitted) <==>
                      manifest.Some? && !FoundTracked(c, instanceDir, f) && FoundUntracked(c, instanceDir, f))
                && (err == Some(ReadFailed) <==> clean && r.oldInstance.Some? && f.read)
                && (err == Some(OldDiffers) <==> clean && !f.read && !NamesCurrent(r, manifest))
                && (err.None? <==> clean && (r.oldInstance.Some? ==> !f.read) && NamesCurrent(r, manifest))
      ensures Resources(cleanup.cleanupFuncs) == Resources(old(cleanup.cleanupFuncs))
                + if globalLock && err != Some(LockFailed) then [CancelContext, CloseSession, Unlock] else []
    {
      err, f := TakeGlobalLock(globalLock, cleanup, INIT_WORKS);
      if err.Some? {
        return;
      }
      var ok;
      ghost var failed;
      ok, failed := repo.GitPull();
      f := f.(pull := failed);
      if !ok {
        err := Some(PullFailed);
        return;
      }
      if ManifestPath(instanceDir) !in repo.worktree {
        err := Some(NotFound);
        return;
      }
      err, f := EnsureCleanFile(repo, instanceDir, f);
      if err.Some? {
        return;
      }
      err, f := CompareOldInstance(repo, r, instanceDir, f);
    }

    method Commit() returns (ok: bool, ghost f: Faults)
      modifies repo, repo.remote
      ensures Result(repo.Value(), repo.remote.history, ok)
           == DeleterCommit(old(repo.Value()), old(repo.remote.history), instanceDir, request, f)
    {
      f := Faults(false, false, false, Pushed, UNDO_WORKS);
      var done;
      ghost var failed, fate;
      done, failed := repo.GitRemove(instanceDir);
      f := f.(add := failed);
      if !done {
        return false, f;
      }
      done, failed := repo.GitCommit(request);
      f := f.(commit := failed);
      if !done {
        return false, f;
      }
      done, fate := repo.GitPush();
      f := f.(push := fate);
      return done, f;
    }
  }
}
