/** When the git adapter's rollback restores, and what a commit that reports success has achieved, exactly. */
module GitLaws {
  import opened Paths
  import opened Requests
  import opened GitRepo
  import opened Trimming

  /** The clone after an updater's Init has written the request's files. */
  function Written(c: Clone, dir: Path, yaml: string, files: seq<File>): Clone {
    c.(worktree := WriteAll(c.worktree, dir, yaml, files))
  }

  /** Apart from the manifest, the files of the request were already there with those contents. */
  ghost predicate OnlyManifestWritten(c: Clone, dir: Path, yaml: string, files: seq<File>) {
    forall p :: p != ManifestPath(dir) ==> At(WriteAll(c.worktree, dir, yaml, files), p) == At(c.worktree, p)
  }

  /** The request's files changed nothing outside the instance directory. */
  ghost predicate OutsideUntouched(c: Clone, dir: Path, yaml: string, files: seq<File>) {
    forall p :: !Under(dir, p) ==> At(WriteAll(c.worktree, dir, yaml, files), p) == At(c.worktree, p)
  }

  /** So it is when every name resolves to a place below it. */
  lemma InsideWritesOnly(c: Clone, dir: Path, yaml: string, files: seq<File>)
    requires forall f :: f in files ==> Under(dir, FilePath(dir, f.name))
    ensures OutsideUntouched(c, dir, yaml, files)
  {
    WritesBelow(dir, yaml, files, |files|);
  }

  lemma {:induction false} WritesBelow(dir: Path, yaml: string, files: seq<File>, k: nat)
    requires k <= |files| && forall f :: f in files ==> Under(dir, FilePath(dir, f.name))
    ensures forall p :: p in Writes(dir, yaml, files, k) ==> Under(dir, p)
  {
    ManifestIsUnder(dir);
    if k > 0 {
      WritesBelow(dir, yaml, files, k - 1);
      assert files[k - 1] in files;
    }
  }

  lemma ManifestWritten(c: Clone, dir: Path, yaml: string, files: seq<File>)
    ensures ManifestPath(dir) in WriteAll(c.worktree, dir, yaml, files)
  {
  }

  /** An Init leaves every file as its last write did, the manifest first, and every other path as it was. */
  lemma InitWrites(t: Tree, dir: Path, yaml: string, files: seq<File>, p: Path)
    ensures forall k: nat :: LastAtPath(dir, files, |files|, k) && FilePath(dir, files[k].name) == p ==>
              At(WriteAll(t, dir, yaml, files), p) == Some(files[k].contents)
    ensures (forall f :: f in files ==> FilePath(dir, f.name) != p) ==>
              At(WriteAll(t, dir, yaml, files), p) == if p == ManifestPath(dir) then Some(yaml) else At(t, p)
  {
    forall k: nat | LastAtPath(dir, files, |files|, k) && FilePath(dir, files[k].name) == p
      ensures At(WriteAll(t, dir, yaml, files), p) == Some(files[k].contents)
    {
      LastAtPathWritten(dir, yaml, files, |files|, k);
    }
    if forall f :: f in files ==> FilePath(dir, f.name) != p {
      ManifestFirst(dir, yaml, files, |files|, p);
    }
  }

  lemma {:induction false} ManifestFirst(dir: Path, yaml: string, files: seq<File>, k: nat, p: Path)
    requires k <= |files| && forall f :: f in files ==> FilePath(dir, f.name) != p
    ensures At(Writes(dir, yaml, files, k), p) == if p == ManifestPath(dir) then Some(yaml) else None
  {
    if k > 0 {
      ManifestFirst(dir, yaml, files, k - 1, p);
      assert files[k - 1] in files;
    }
  }

  /** The manifest an Init leaves in the worktree is the one the request's own files leave of it. */
  lemma ManifestOfInit(t: Tree, dir: Path, yaml: string, files: seq<File>)
    ensures At(WriteAll(t, dir, yaml, files), ManifestPath(dir)) == Some(DiskYaml(dir, yaml, files, |files|))
  {
  }

  lemma SameClone(c: Clone, d: Clone)
    requires forall p :: At(c.worktree, p) == At(d.worktree, p)
    requires forall p :: At(c.index, p) == At(d.index, p)
    requires c.history == d.history
    ensures c == d
  {
    SameTree(c.worktree, d.worktree);
    SameTree(c.index, d.index);
  }

  /** With nothing tracked below the directory, removing it undoes everything an Init wrote there, and nothing elsewhere. */
  lemma RollbackNewDir(c: Clone, dir: Path, yaml: string, files: seq<File>)
    requires CleanDir(c, dir) && !TrackedUnder(c, dir)
    ensures Rollback(Written(c, dir, yaml, files), dir, UNDO_WORKS) == (c, true) <==> OutsideUntouched(c, dir, yaml, files)
  {
    ManifestIsUnder(dir);
    var w := Written(c, dir, yaml, files);
    assert !TrackedUnder(w, dir);
    var d := RemoveDir(w, dir);
    assert forall p :: At(d.worktree, p) == if Under(dir, p) then None else At(w.worktree, p);
    if OutsideUntouched(c, dir, yaml, files) {
      SameClone(d, c);
    }
  }

  /** With the manifest untracked in a tracked directory, removing the manifest undoes an Init that wrote no other file. */
  lemma RollbackNewManifest(c: Clone, dir: Path, yaml: string, files: seq<File>)
    requires CleanDir(c, dir) && TrackedUnder(c, dir) && ManifestPath(dir) !in c.index
    ensures Rollback(Written(c, dir, yaml, files), dir, UNDO_WORKS) == (c, true) <==> OnlyManifestWritten(c, dir, yaml, files)
  {
    ManifestIsUnder(dir);
    var w, file := Written(c, dir, yaml, files), ManifestPath(dir);
    assert TrackedUnder(w, dir);
    var d := RemoveFile(w, file);
    assert forall p :: At(d.worktree, p) == if p == file then None else At(w.worktree, p);
    assert file !in c.worktree;
    if OnlyManifestWritten(c, dir, yaml, files) {
      SameClone(d, c);
    }
  }

  /** With the manifest tracked, reset and checkout take it back to HEAD. */
  lemma RollbackTracked(c: Clone, dir: Path)
    requires ManifestPath(dir) in c.index
    ensures var file, (d, ok) := ManifestPath(dir), Rollback(c, dir, UNDO_WORKS);
            && (ok <==> file in Head(c))
            && d.history == c.history
            && (forall p :: At(d.index, p) == if p == file then At(Head(c), file) else At(c.index, p))
            && (forall p :: At(d.worktree, p) == if p == file && file in Head(c) then At(Head(c), file) else At(c.worktree, p))
  {
  }

  /** A rollback over a tracked manifest leaves nothing staged exactly when nothing but the manifest was. */
  lemma RollbackUnstagesExactly(c: Clone, dir: Path)
    requires ManifestPath(dir) in c.index
    ensures Rollback(c, dir, UNDO_WORKS).0.index == Head(c) <==> OnlyManifestStaged(c, dir)
  {
    RollbackTracked(c, dir);
    if OnlyManifestStaged(c, dir) {
      SameTree(Rollback(c, dir, UNDO_WORKS).0.index, Head(c));
    }
  }

  /** Whatever fails in it, a rollback keeps the history, and index and worktree outside the directory. */
  lemma RollbackStaysInside(c: Clone, dir: Path, f: UndoFaults, p: Path)
    ensures Rollback(c, dir, f).0.history == c.history
    ensures !Under(dir, p) ==>
              At(Rollback(c, dir, f).0.index, p) == At(c.index, p) && At(Rollback(c, dir, f).0.worktree, p) == At(c.worktree, p)
  {
    ManifestIsUnder(dir);
  }

  /** When git cannot list the files, rollback takes a tracked directory for a new one and removes all of it. */
  lemma FailedListingRemovesAll(c: Clone, dir: Path, second: bool, p: Path)
    ensures At(Rollback(c, dir, UndoFaults(true, true, false, second)).0.worktree, p)
         == if Under(dir, p) then None else At(c.worktree, p)
  {
  }

  /** A commit whose git add fails leaves the clone as it was before Init exactly in these cases, and the remote in all. */
  lemma RollbackAfterFailedAdd(c: Clone, remote: History, dir: Path, yaml: string, files: seq<File>,
                               request: nat, skipCommit: bool, f: Faults)
    requires CleanDir(c, dir) && SeesChanges(Written(c, dir, yaml, files), f) && f.add && f.undo == UNDO_WORKS
    ensures var r := UpdaterCommit(Written(c, dir, yaml, files), remote, dir, request, skipCommit, f);
            && !r.ok && r.remote == remote
            && (r.clone == c <==>
                  if !TrackedUnder(c, dir) then OutsideUntouched(c, dir, yaml, files)
                  else OnlyManifestWritten(c, dir, yaml, files)
                       && (ManifestPath(dir) in c.index ==> At(Head(c), ManifestPath(dir)) == At(c.index, ManifestPath(dir))))
  {
    var w, file := Written(c, dir, yaml, files), ManifestPath(dir);
    ManifestIsUnder(dir);
    if !TrackedUnder(c, dir) {
      RollbackNewDir(c, dir, yaml, files);
    } else if file !in c.index {
      RollbackNewManifest(c, dir, yaml, files);
    } else {
      RollbackTracked(w, dir);
      RestoredExactly(c, dir, yaml, files, w);
    }
  }

  /** After a failed git commit: the manifest has to be in HEAD, unstaged, and the only file the request wrote. */
  lemma RollbackAfterFailedCommit(c: Clone, remote: History, dir: Path, yaml: string, files: seq<File>, request: nat, f: Faults)
    requires CleanDir(c, dir) && SeesChanges(Written(c, dir, yaml, files), f) && !f.add && f.commit && f.undo == UNDO_WORKS
    ensures var r := UpdaterCommit(Written(c, dir, yaml, files), remote, dir, request, false, f);
            && !r.ok && r.remote == remote
            && (r.clone == c <==>
                  && ManifestPath(dir) in Head(c)
                  && At(c.index, ManifestPath(dir)) == At(Head(c), ManifestPath(dir))
                  && OnlyManifestWritten(c, dir, yaml, files))
  {
    var w, file := Written(c, dir, yaml, files), ManifestPath(dir);
    ManifestIsUnder(dir);
    ManifestWritten(c, dir, yaml, files);
    assert file in Inside(w.worktree, dir);
    var a := Add(w, dir).value;
    forall p ensures At(a.index, p) == if Under(dir, p) then At(w.worktree, p) else At(c.index, p) {
      AddAt(w, dir, p);
    }
    RollbackTracked(a, dir);
    if file in Head(c) && At(c.index, file) == At(Head(c), file) {
      RestoredExactly(c, dir, yaml, files, a);
    }
  }

  /** With skipCommit, a change that was seen is staged and nothing else moves. */
  lemma SkipCommitStages(c: Clone, remote: History, dir: Path, request: nat, f: Faults, p: Path)
    requires SeesChanges(c, f) && UpdaterCommit(c, remote, dir, request, true, f).ok
    ensures var r := UpdaterCommit(c, remote, dir, request, true, f);
            && r.remote == remote && r.clone.history == c.history && r.clone.worktree == c.worktree
            && At(r.clone.index, p) == if Under(dir, p) then At(c.worktree, p) else At(c.index, p)
  {
    AddAt(c, dir, p);
  }

  /** Whatever state a clone is in and whatever fails, neither commit takes a commit away from the remote. */
  lemma RemoteOnlyGrows(c: Clone, remote: History, dir: Path, request: nat, skipCommit: bool, f: Faults)
    ensures remote <= UpdaterCommit(c, remote, dir, request, skipCommit, f).remote
    ensures remote <= DeleterCommit(c, remote, dir, request, f).remote
  {
  }

  /** A rollback reports success only with every command that undoes done, and one that fails leaves the worktree alone. */
  lemma RollbackReports(c: Clone, dir: Path, f: UndoFaults)
    ensures !Rollback(c, dir, f).1 ==> Rollback(c, dir, f).0.worktree == c.worktree
    ensures Rollback(c, dir, f).1 ==>
              !f.first && Rollback(c, dir, f) == Rollback(c, dir, UndoFaults(f.listFile, f.listDir, false, false))
    ensures f.first ==> Rollback(c, dir, f) == (c, false)
    ensures f.second && ManifestPath(dir) in c.index && !f.listFile ==> !Rollback(c, dir, f).1
  {
  }

  /** A clone that differs from a clean one only in what an Init wrote, staged or not, is restored by taking the manifest back. */
  lemma RestoredExactly(c: Clone, dir: Path, yaml: string, files: seq<File>, a: Clone)
    requires CleanDir(c, dir) && ManifestPath(dir) in c.index && ManifestPath(dir) in a.index
    requires a.history == c.history && a.worktree == WriteAll(c.worktree, dir, yaml, files)
    requires a.index == c.index
             || forall p :: At(a.index, p) == if Under(dir, p) then At(a.worktree, p) else At(c.index, p)
    ensures Rollback(a, dir, UNDO_WORKS).0 == c
       <==> OnlyManifestWritten(c, dir, yaml, files) && At(Head(c), ManifestPath(dir)) == At(c.index, ManifestPath(dir))
  {
    var file, d := ManifestPath(dir), Rollback(a, dir, UNDO_WORKS).0;
    ManifestIsUnder(dir);
    RollbackTracked(a, dir);
    if OnlyManifestWritten(c, dir, yaml, files) && At(Head(c), file) == At(c.index, file) {
      forall p ensures At(d.index, p) == At(c.index, p) && At(d.worktree, p) == At(c.worktree, p) {
        CleanAt(c, dir, p);
      }
      SameClone(d, c);
    }
    if d == c {
      assert At(d.index, file) == At(Head(c), file);
      assert forall p :: p != file ==> At(d.worktree, p) == At(a.worktree, p);
    }
  }

  /** In a clean directory worktree and index agree. */
  lemma CleanAt(c: Clone, dir: Path, p: Path)
    requires CleanDir(c, dir)
    ensures Under(dir, p) ==> At(c.worktree, p) == At(c.index, p)
  {
  }

  // ----------------------------------------------------------- what success means

  /** A successful commit leaves remote and local history equal exactly when it had something to commit or they were equal before. */
  lemma SuccessMeansPushed(c: Clone, remote: History, dir: Path, request: nat, f: Faults)
    requires UpdaterCommit(c, remote, dir, request, false, f).ok
    ensures var r := UpdaterCommit(c, remote, dir, request, false, f);
            r.remote == r.clone.history <==> SeesChanges(c, f) || remote == c.history
  {
  }

  /** A commit that reports success has met no failure: no command of it failed, and its push was answered. */
  lemma SuccessMeansAllWorked(c: Clone, remote: History, dir: Path, request: nat, skipCommit: bool, f: Faults)
    ensures UpdaterCommit(c, remote, dir, request, skipCommit, f).ok && SeesChanges(c, f) ==>
              !f.add && (skipCommit || (!f.commit && f.push.Pushed?))
    ensures DeleterCommit(c, remote, dir, request, f).ok ==> !f.add && !f.commit && f.push.Pushed?
  {
  }

  /** A successful commit has the manifest in HEAD exactly when a difference was seen or the manifest was tracked. */
  lemma SuccessMeansStored(c: Clone, remote: History, dir: Path, yaml: string, request: nat, f: Faults)
    requires At(c.worktree, ManifestPath(dir)) == Some(yaml)
    requires UpdaterCommit(c, remote, dir, request, false, f).ok
    ensures At(Head(UpdaterCommit(c, remote, dir, request, false, f).clone), ManifestPath(dir)) == Some(yaml)
       <==> SeesChanges(c, f) || ManifestPath(dir) in c.index
  {
    var file := ManifestPath(dir);
    ManifestIsUnder(dir);
    if !SeesChanges(c, f) {
      assert file in c.index.Keys + Head(c).Keys ==> At(Head(c), file) == if file in c.index then At(c.worktree, file) else None;
    } else {
      AddAt(c, dir, file);
    }
  }

  /** Nothing is staged and no tracked file is changed. */
  ghost predicate NothingPending(c: Clone) {
    c.index == Head(c) && forall p :: p in c.index ==> At(c.worktree, p) == At(c.index, p)
  }

  /**
   * A new instance in an otherwise clean clone: Apply reports success with nothing added, committed
   * or pushed, exactly when none of its files changes a tracked one.
   */
  lemma NewInstanceDropped(c: Clone, dir: Path, yaml: string, files: seq<File>, request: nat, f: Faults)
    requires NothingPending(c) && ManifestPath(dir) !in c.index && !f.diff
    ensures UpdaterCommit(Written(c, dir, yaml, files), c.history, dir, request, false, f)
              == Result(Written(c, dir, yaml, files), c.history, true)
       <==> forall p :: p in c.index ==> At(WriteAll(c.worktree, dir, yaml, files), p) == At(c.worktree, p)
  {
  }

  /** The new commit changes only paths below the instance directory exactly when nothing else was staged. */
  lemma CommitConfined(c: Clone, remote: History, dir: Path, request: nat, f: Faults)
    requires UpdaterCommit(c, remote, dir, request, false, f).ok && SeesChanges(c, f)
    ensures var d := UpdaterCommit(c, remote, dir, request, false, f).clone;
            (forall p :: !Under(dir, p) ==> At(Head(d), p) == At(Head(c), p))
            <==> (forall p :: !Under(dir, p) ==> At(c.index, p) == At(Head(c), p))
  {
    var d := UpdaterCommit(c, remote, dir, request, false, f).clone;
    forall p ensures At(Head(d), p) == if Under(dir, p) then At(c.worktree, p) else At(c.index, p) {
      AddAt(c, dir, p);
    }
  }

  /** A failed commit leaves the remote alone unless it was the push that got through unanswered. */
  lemma FailureKeepsRemote(c: Clone, remote: History, dir: Path, request: nat, skipCommit: bool, f: Faults)
    requires !UpdaterCommit(c, remote, dir, request, skipCommit, f).ok && !f.push.Unanswered?
    ensures UpdaterCommit(c, remote, dir, request, skipCommit, f).remote == remote
  {
  }

  /** A whole Apply on a clone: pull, check clean, compare, write, commit. */
  function Attempt(c: Clone, remote: History, r: Request, request: nat, f: Faults): Result {
    var pulled := Pull(c, remote);
    if pulled.None? then Result(c, remote, false)
    else if !CleanDir(pulled.value, r.Dir()) || !Matches(r, At(pulled.value.worktree, ManifestPath(r.Dir())))
    then Result(pulled.value, remote, false)
    else UpdaterCommit(Written(pulled.value, r.Dir(), r.yaml, r.files), remote, r.Dir(), request, false, f)
  }

  /**
   * The admitted gap: an Apply whose push was lost fails, and whatever a retry of it reports, its commit
   * still does not reach the remote. The retry reports success exactly when it passes the comparison,
   * which is now with the manifest of the lost commit: without an old instance, or with one that
   * matches the request's own manifest. It is any request that changes something tracked and writes
   * only below its directory.
   */
  lemma RetryAfterLostPush(c: Clone, r: Request, request: nat, f: Faults, g: Faults)
    requires NothingPending(c) && CleanDir(c, r.Dir()) && NamesCurrent(r, At(c.worktree, ManifestPath(r.Dir())))
    requires OutsideUntouched(c, r.Dir(), r.yaml, r.files) && !DiffHeadClean(Written(c, r.Dir(), r.yaml, r.files))
    requires !f.add && !f.commit && f.push.Lost? && f.undo == UNDO_WORKS && !g.diff
    ensures var first := Attempt(c, c.history, r, request, f);
            var second := Attempt(first.clone, first.remote, r, request, g);
            && !first.ok && first.remote == c.history
            && (second.ok <==> NamesCurrent(r, Some(DiskYaml(r.Dir(), r.yaml, r.files, |r.files|))))
            && second.remote == c.history && second.clone.history != second.remote
  {
    var m := LostPushRetried(c, r.Dir(), r.yaml, r.files, request, f);
    MatchesExactly(r, At(c.worktree, ManifestPath(r.Dir())));
    MatchesExactly(r, At(m.worktree, ManifestPath(r.Dir())));
    assert Pull(c, c.history) == Some(c) && Pull(m, c.history) == Some(m);
    assert Attempt(c, c.history, r, request, f) == Result(m, c.history, false);
  }

  /** The clone after a lost push: the commit is there, the directory clean, and writing and committing again change nothing. */
  lemma LostPushRetried(c: Clone, dir: Path, yaml: string, files: seq<File>, request: nat, f: Faults) returns (m: Clone)
    requires NothingPending(c) && CleanDir(c, dir) && OutsideUntouched(c, dir, yaml, files)
    requires !DiffHeadClean(Written(c, dir, yaml, files))
    requires !f.add && !f.commit && f.push.Lost? && f.undo == UNDO_WORKS
    ensures UpdaterCommit(Written(c, dir, yaml, files), c.history, dir, request, false, f) == Result(m, c.history, false)
    ensures c.history < m.history && CleanDir(m, dir) && DiffHeadClean(m) && Written(m, dir, yaml, files) == m
    ensures At(m.worktree, ManifestPath(dir)) == Some(DiskYaml(dir, yaml, files, |files|))
  {
    var file, w := ManifestPath(dir), Written(c, dir, yaml, files);
    ManifestIsUnder(dir);
    ManifestWritten(c, dir, yaml, files);
    assert file in Inside(w.worktree, dir);
    var a := Add(w, dir).value;
    StagedAll(c, w, dir);
    if a.index == Head(w) {
      NothingStaged(c, w, dir);
    }
    m := CommitIndex(a, request).value;
    LostPushLeaves(m, w, dir, request, f);
    assert Written(m, dir, yaml, files).worktree == m.worktree;
  }

  /** Adding the directory of a clean clone after writes below it stages the worktree, as far as it was tracked outside. */
  lemma StagedAll(c: Clone, w: Clone, dir: Path)
    requires NothingPending(c) && w.index == c.index && w.history == c.history
    requires forall p :: !Under(dir, p) ==> At(w.worktree, p) == At(c.worktree, p)
    requires Add(w, dir).Some?
    ensures var a := Add(w, dir).value;
            && (forall p :: p in a.index ==> At(w.worktree, p) == At(a.index, p))
            && (forall p :: Under(dir, p) ==> At(w.worktree, p) == At(a.index, p))
            && (forall p :: p in w.index && !Under(dir, p) ==> At(w.worktree, p) == At(a.index, p))
  {
    var a := Add(w, dir).value;
    forall p
      ensures p in a.index ==> At(w.worktree, p) == At(a.index, p)
      ensures Under(dir, p) ==> At(w.worktree, p) == At(a.index, p)
      ensures p in w.index && !Under(dir, p) ==> At(w.worktree, p) == At(a.index, p)
    {
      AddAt(w, dir, p);
    }
  }

  lemma NothingStaged(c: Clone, w: Clone, dir: Path)
    requires NothingPending(c) && w.index == c.index && w.history == c.history
    requires forall p :: !Under(dir, p) ==> At(w.worktree, p) == At(c.worktree, p)
    requires Add(w, dir).Some? && Add(w, dir).value.index == Head(w)
    ensures DiffHeadClean(w)
  {
    StagedAll(c, w, dir);
  }

  /** Rolling back a commit whose push was lost changes nothing: the commit stays, unpushed. */
  lemma LostPushLeaves(m: Clone, w: Clone, dir: Path, request: nat, f: Faults)
    requires Add(w, dir).Some? && CommitIndex(Add(w, dir).value, request) == Some(m) && SeesChanges(w, f)
    requires !f.add && !f.commit && f.push.Lost? && f.undo == UNDO_WORKS
    requires ManifestPath(dir) in m.index && At(m.worktree, ManifestPath(dir)) == At(m.index, ManifestPath(dir))
    ensures UpdaterCommit(w, w.history, dir, request, false, f) == Result(m, w.history, false)
  {
    RollbackTracked(m, dir);
    SameClone(Rollback(m, dir, UNDO_WORKS).0, m);
  }

  // ------------------------------------------------------------------ the deleter

  /** A successful delete pushes one commit that removes exactly the instance's files, if nothing else was staged. */
  lemma DeleteMeansRemoved(c: Clone, remote: History, dir: Path, request: nat, f: Faults)
    requires DeleterCommit(c, remote, dir, request, f).ok
    ensures var r := DeleterCommit(c, remote, dir, request, f);
            && r.remote == r.clone.history == c.history + [Commit(Outside(c.index, dir), request)]
            && (CleanDir(c, dir) ==> forall p :: Under(dir, p) ==> p !in r.clone.worktree && p !in r.clone.index)
            && (c.index == Head(c) ==> Head(r.clone) == Outside(Head(c), dir))
  {
  }

  /** Whatever fails in it, a delete takes off the disk only tracked files below its directory. */
  lemma DeleteKeepsOthers(c: Clone, remote: History, dir: Path, request: nat, f: Faults, p: Path)
    ensures var r := DeleterCommit(c, remote, dir, request, f);
            && (!Under(dir, p) || p !in c.index ==> At(r.clone.worktree, p) == At(c.worktree, p))
            && (Under(dir, p) && p in c.index && r.ok ==> p !in r.clone.worktree)
  {
    RemoveAt(c, dir, p);
  }

  /** A delete whose commit fails leaves its removal staged, where the next commit of any instance picks it up. */
  lemma FailedDeleteStaysStaged(c: Clone, remote: History, dir: Path, request: nat, f: Faults)
    requires c.index == Head(c) && TrackedUnder(c, dir) && !f.add && f.commit
    ensures var r := DeleterCommit(c, remote, dir, request, f);
            !r.ok && r.remote == remote && r.clone.index != Head(r.clone)
  {
    var p :| p in c.index && Under(dir, p);
    assert p in Inside(c.index, dir) && p !in Outside(c.index, dir);
  }

  // ------------------------------------------------------- requests that nothing stops

  const COMMIT_WORKS := Faults(false, false, false, Pushed, UNDO_WORKS)

  /**
   * A clone without changes of its own, perhaps behind the remote; its untracked files are not in the
   * way of a pull and not below the directory.
   */
  ghost predicate CleanStart(c: Clone, remote: History, dir: Path) {
    && c.history <= remote && c.index == Head(c)
    && (forall p :: p in Head(c) ==> At(c.worktree, p) == At(Head(c), p))
    && (forall p :: p in c.worktree && p !in Head(c) ==> p !in TreeOf(remote) && !Under(dir, p))
  }

  /** The clone after the pull: at the remote's tip, clean below the directory. */
  lemma AfterPull(c: Clone, remote: History, dir: Path) returns (d: Clone)
    requires CleanStart(c, remote, dir)
    ensures Pull(c, remote) == Some(d) && NothingPending(d) && d.history == remote && CleanDir(d, dir)
    ensures forall p :: p in TreeOf(remote) || Under(dir, p) ==> At(d.worktree, p) == At(TreeOf(remote), p)
  {
    CleanPulls(c, remote);
    d := Pull(c, remote).value;
  }

  /** A request's writes change a file that the remote's tip has. */
  ghost predicate ChangesTracked(r: Request, tip: Tree) {
    exists p :: p in Asked(r, r.Dir()) && p in tip && tip[p] != Asked(r, r.Dir())[p]
  }

  /** A request's writes add or change a file below its directory. */
  ghost predicate ChangesBelow(r: Request, tip: Tree) {
    exists p :: p in Asked(r, r.Dir()) && Under(r.Dir(), p) && At(tip, p) != Some(Asked(r, r.Dir())[p])
  }

  lemma WrittenAt(d: Clone, r: Request, tip: Tree)
    requires forall p :: p in tip || Under(r.Dir(), p) ==> At(d.worktree, p) == At(tip, p)
    ensures forall p :: p in tip || Under(r.Dir(), p) ==>
              At(Written(d, r.Dir(), r.yaml, r.files).worktree, p) == WrittenOver(Asked(r, r.Dir()), tip, p)
  {
  }

  lemma SeesTracked(d: Clone, r: Request, tip: Tree)
    requires d.index == Head(d) == tip
    requires forall p :: p in tip || Under(r.Dir(), p) ==> At(d.worktree, p) == At(tip, p)
    ensures DiffHeadClean(Written(d, r.Dir(), r.yaml, r.files)) <==> !ChangesTracked(r, tip)
  {
    var w := Written(d, r.Dir(), r.yaml, r.files);
    WrittenAt(d, r, tip);
    if ChangesTracked(r, tip) {
      var p :| p in Asked(r, r.Dir()) && p in tip && tip[p] != Asked(r, r.Dir())[p];
      assert p in w.index.Keys + Head(w).Keys && At(w.worktree, p) != At(tip, p);
    }
  }

  /** What adding the directory stages, and whether it is anything. */
  lemma StagesBelow(d: Clone, r: Request, tip: Tree)
    requires d.index == Head(d) == tip
    requires forall p :: p in tip || Under(r.Dir(), p) ==> At(d.worktree, p) == At(tip, p)
    ensures var a := Add(Written(d, r.Dir(), r.yaml, r.files), r.Dir());
            && a.Some? && (r.kind.Apply? ==> Changes(r, r.Dir(), tip, a.value.index))
            && (a.value.index == tip <==> !ChangesBelow(r, tip))
  {
    var w := Written(d, r.Dir(), r.yaml, r.files);
    WrittenAt(d, r, tip);
    ManifestIsUnder(r.Dir());
    ManifestWritten(d, r.Dir(), r.yaml, r.files);
    assert ManifestPath(r.Dir()) in Inside(w.worktree, r.Dir());
    var a := Add(w, r.Dir()).value;
    forall p ensures At(a.index, p) == if Under(r.Dir(), p) then WrittenOver(Asked(r, r.Dir()), tip, p) else At(tip, p) {
      AddAt(w, r.Dir(), p);
    }
    if ChangesBelow(r, tip) {
      var p :| p in Asked(r, r.Dir()) && Under(r.Dir(), p) && At(tip, p) != Some(Asked(r, r.Dir())[p]);
      assert At(a.index, p) != At(tip, p);
    } else {
      SameTree(a.index, tip);
    }
  }

  lemma WorkingSteps(w: Clone, dir: Path, request: nat)
    requires Add(w, dir).Some? && !DiffHeadClean(w)
    ensures var added := Add(w, dir).value;
            var history := w.history + [Commit(added.index, request)];
            UpdaterCommit(w, w.history, dir, request, false, COMMIT_WORKS)
            == if added.index == Head(w) then Result(Rollback(added, dir, UNDO_WORKS).0, w.history, false)
               else Result(added.(history := history), history, true)
  {
  }

  /** What an updater's working commit makes of a clean clone with the request's writes. */
  lemma WorkingCommit(d: Clone, r: Request, request: nat, tip: Tree)
    requires d.index == Head(d) == tip && r.kind.Apply?
    requires forall p :: p in tip || Under(r.Dir(), p) ==> At(d.worktree, p) == At(tip, p)
    ensures var a := UpdaterCommit(Written(d, r.Dir(), r.yaml, r.files), d.history, r.Dir(), request, false, COMMIT_WORKS);
            && (a.ok <==> !ChangesTracked(r, tip) || ChangesBelow(r, tip))
            && (if a.ok && ChangesTracked(r, tip)
                then a.clone.history == a.remote == d.history + [Commit(TreeOf(a.remote), request)]
                     && Changes(r, r.Dir(), tip, TreeOf(a.remote))
                else a.remote == d.history)
  {
    var w := Written(d, r.Dir(), r.yaml, r.files);
    SeesTracked(d, r, tip);
    StagesBelow(d, r, tip);
    if !DiffHeadClean(w) {
      WorkingSteps(w, r.Dir(), request);
    }
  }

  /**
   * An Apply on a clean clone with every command working: it passes exactly when its old instance is
   * current, and then pushes one commit with just its own files if it changes a tracked one and anything
   * below its directory, reports success without a commit if it changes no tracked file, and fails if all
   * it changes of tracked files is outside its directory.
   */
  lemma WorkingApply(c: Clone, remote: History, r: Request, request: nat)
    requires CleanStart(c, remote, r.Dir()) && r.kind.Apply?
    ensures var tip, a := TreeOf(remote), Attempt(c, remote, r, request, COMMIT_WORKS);
            var current := NamesCurrent(r, At(tip, ManifestPath(r.Dir())));
            && (a.ok <==> current && (!ChangesTracked(r, tip) || ChangesBelow(r, tip)))
            && (if a.ok && ChangesTracked(r, tip)
                then a.clone.history == a.remote == remote + [Commit(TreeOf(a.remote), request)]
                     && Changes(r, r.Dir(), tip, TreeOf(a.remote))
                else a.remote == remote)
  {
    var tip := TreeOf(remote);
    var d := AfterPull(c, remote, r.Dir());
    ManifestIsUnder(r.Dir());
    MatchesExactly(r, At(d.worktree, ManifestPath(r.Dir())));
    WorkingCommit(d, r, request, tip);
  }

  /** A whole Delete on a clone: pull, look for the instance, check clean, compare, remove. */
  function AttemptDelete(c: Clone, remote: History, r: Request, request: nat, f: Faults): Result {
    var pulled := Pull(c, remote);
    if pulled.None? then Result(c, remote, false)
    else if ManifestPath(r.Dir()) !in pulled.value.worktree || !CleanDir(pulled.value, r.Dir())
            || !Matches(r, At(pulled.value.worktree, ManifestPath(r.Dir())))
    then Result(pulled.value, remote, false)
    else DeleterCommit(pulled.value, remote, r.Dir(), request, f)
  }

  /**
   * A Delete on a clean clone with every command working succeeds exactly when the instance is there and its
   * old instance is current, and then pushes one commit in which all files of the instance are gone.
   */
  lemma WorkingDelete(c: Clone, remote: History, r: Request, request: nat)
    requires CleanStart(c, remote, r.Dir()) && r.kind.Delete?
    ensures var tip, a := TreeOf(remote), AttemptDelete(c, remote, r, request, COMMIT_WORKS);
            && (a.ok <==> ManifestPath(r.Dir()) in tip && NamesCurrent(r, At(tip, ManifestPath(r.Dir()))))
            && (if a.ok
                then a.clone.history == a.remote == remote + [Commit(TreeOf(a.remote), request)]
                     && Changes(r, r.Dir(), tip, TreeOf(a.remote))
                else a.remote == remote)
  {
    var tip, file := TreeOf(remote), ManifestPath(r.Dir());
    var d := AfterPull(c, remote, r.Dir());
    ManifestIsUnder(r.Dir());
    MatchesExactly(r, At(d.worktree, file));
    if file in tip {
      assert file in Inside(d.index, r.Dir()) && file !in Outside(d.index, r.Dir());
    }
  }
}
