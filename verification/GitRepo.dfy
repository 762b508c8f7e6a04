/**
 * One clone of the repository as four layers (worktree, index, local history, shared remote), and
 * the git and shell commands that the adapter runs, each a small total operation on them. None
 * stands for a non-zero exit status.
 */
module GitRepo {
  import opened Paths
  import opened Requests

  type Tree = map<Path, string>

  /** A commit: its tree and, as history, the request that made it. */
  datatype Commit = Commit(tree: Tree, request: nat)

  type History = seq<Commit>

  datatype Clone = Clone(worktree: Tree, index: Tree, history: History)

  function At(t: Tree, path: Path): Option<string> {
    if path in t then Some(t[path]) else None
  }

  function TreeOf(h: History): Tree {
    if h == [] then map[] else h[|h| - 1].tree
  }

  function Head(c: Clone): Tree {
    TreeOf(c.history)
  }

  predicate Under(dir: Path, path: Path) {
    dir < path
  }

  lemma ManifestIsUnder(dir: Path)
    ensures Under(dir, ManifestPath(dir))
  {
  }

  // ------------------------------------------------------------ reading commands

  /** git diff --exit-code HEAD: the worktree against HEAD, over tracked paths only. */
  predicate DiffHeadClean(c: Clone) {
    forall p :: p in c.index.Keys + Head(c).Keys ==> At(Head(c), p) == if p in c.index then At(c.worktree, p) else None
  }

  /** git diff --exit-code -- dir: the worktree against the index. */
  predicate DiffDirClean(c: Clone, dir: Path) {
    forall p :: p in c.index && Under(dir, p) ==> At(c.worktree, p) == At(c.index, p)
  }

  /** git ls-files --others dir prints nothing. */
  predicate NoUntracked(c: Clone, dir: Path) {
    forall p :: p in c.worktree && Under(dir, p) ==> p in c.index
  }

  /** git ls-files --error-unmatch on a directory. */
  predicate TrackedUnder(c: Clone, dir: Path) {
    exists p :: p in c.index && Under(dir, p)
  }

  // ----------------------------------------------------------- changing commands

  function Outside(t: Tree, dir: Path): Tree {
    map p | p in t && !Under(dir, p) :: t[p]
  }

  function Inside(t: Tree, dir: Path): Tree {
    map p | p in t && Under(dir, p) :: t[p]
  }

  /** git add dir: stages additions, changes and removals below the directory. */
  function Add(c: Clone, dir: Path): Option<Clone> {
    if Inside(c.index, dir) == map[] && Inside(c.worktree, dir) == map[] then None
    else Some(c.(index := Outside(c.index, dir) + Inside(c.worktree, dir)))
  }

  /** git commit: refuses when nothing is staged. */
  function CommitIndex(c: Clone, request: nat): Option<Clone> {
    if c.index == Head(c) then None else Some(c.(history := c.history + [Commit(c.index, request)]))
  }

  /** git push: refuses unless the remote history is a prefix of the local one. */
  function Push(c: Clone, remote: History): Option<History> {
    if remote <= c.history then Some(c.history) else None
  }

  /** The paths at which two trees differ. */
  function Changed(a: Tree, b: Tree): set<Path> {
    set p | p in a.Keys + b.Keys && At(a, p) != At(b, p)
  }

  /** A tree with the given paths taken from another. */
  function Overlay(t: Tree, paths: set<Path>, from: Tree): Tree {
    map p | p in t.Keys + from.Keys && (if p in paths then p in from else p in t) :: if p in paths then from[p] else t[p]
  }

  /** git pull where no merge is needed: nothing to do, or a fast-forward that would overwrite no local change. */
  function Pull(c: Clone, remote: History): Option<Clone> {
    if remote <= c.history then Some(c)
    else if !(c.history <= remote) then None
    else
      var changed := Changed(Head(c), TreeOf(remote));
      if exists p :: p in changed && (At(c.index, p) != At(Head(c), p) || At(c.worktree, p) != At(Head(c), p)) then None
      else Some(Clone(Overlay(c.worktree, changed, TreeOf(remote)), Overlay(c.index, changed, TreeOf(remote)), remote))
  }

  /** git rm -rf dir: drops the tracked files below the directory from index and worktree. */
  function RemoveTracked(c: Clone, dir: Path): Option<Clone> {
    if Inside(c.index, dir) == map[] then None
    else Some(c.(index := Outside(c.index, dir), worktree := c.worktree - Inside(c.index, dir).Keys))
  }

  /** git reset HEAD file. */
  function Reset(c: Clone, file: Path): Clone {
    c.(index := if file in Head(c) then c.index[file := Head(c)[file]] else c.index - {file})
  }

  /** git checkout file. */
  function Checkout(c: Clone, file: Path): Option<Clone> {
    if file in c.index then Some(c.(worktree := c.worktree[file := c.index[file]])) else None
  }

  /** rm -rf dir. */
  function RemoveDir(c: Clone, dir: Path): Clone {
    c.(worktree := Outside(c.worktree, dir))
  }

  /** rm -f file. */
  function RemoveFile(c: Clone, file: Path): Clone {
    c.(worktree := c.worktree - {file})
  }

  // ------------------------------------------------------------ adapter fragments

  predicate CleanDir(c: Clone, dir: Path) {
    DiffDirClean(c, dir) && NoUntracked(c, dir)
  }

  /** Nothing but the instance's manifest is staged. */
  ghost predicate OnlyManifestStaged(c: Clone, dir: Path) {
    forall p :: p != ManifestPath(dir) ==> At(c.index, p) == At(Head(c), p)
  }

  /** The worktree after an updater's Init: the manifest and then the files, a later write winning. */
  function WriteAll(t: Tree, dir: Path, yaml: string, files: seq<File>): Tree {
    t + Writes(dir, yaml, files, |files|)
  }

  /** Commands of a rollback that fail for reasons of their own: the two listings, and the commands that undo. */
  datatype UndoFaults = UndoFaults(listFile: bool, listDir: bool, first: bool, second: bool)

  const UNDO_WORKS := UndoFaults(false, false, false, false)

  /** Undoing a failed command: three branches on what git lists as tracked; false when a command fails. */
  function Rollback(c: Clone, dir: Path, f: UndoFaults): (Clone, bool) {
    var file := ManifestPath(dir);
    if f.listFile || file !in c.index then
      if f.first then (c, false)
      else if f.listDir || !TrackedUnder(c, dir) then (RemoveDir(c, dir), true)
      else (RemoveFile(c, file), true)
    else if f.first then (c, false)
    else
      var d := Reset(c, file);
      var e := Checkout(d, file);
      if f.second || e.None? then (d, false) else (e.value, true)
  }

  datatype PushFate = Pushed | Lost | Unanswered

  /** Which commands of a commit fail for reasons of their own; a push may fail before or after it arrived. */
  datatype Faults = Faults(diff: bool, add: bool, commit: bool, push: PushFate, undo: UndoFaults)

  datatype Result = Result(clone: Clone, remote: History, ok: bool)

  function FinishPush(c: Clone, remote: History, push: PushFate): (History, bool) {
    var pushed := Push(c, remote);
    if pushed.None? || push.Lost? then (remote, false) else (pushed.value, push.Pushed?)
  }

  /** The diff's exit status says there is something to commit; a diff that fails says so too. */
  predicate SeesChanges(c: Clone, f: Faults) {
    f.diff || !DiffHeadClean(c)
  }

  /** The updater's commit: nothing to do, or add, commit and push with a rollback after whichever fails. */
  function UpdaterCommit(c: Clone, remote: History, dir: Path, request: nat, skipCommit: bool, f: Faults): Result {
    if !SeesChanges(c, f) then Result(c, remote, true)
    else
      var added := Add(c, dir);
      if f.add || added.None? then Result(Rollback(c, dir, f.undo).0, remote, false)
      else if skipCommit then Result(added.value, remote, true)
      else
        var committed := CommitIndex(added.value, request);
        if f.commit || committed.None? then Result(Rollback(added.value, dir, f.undo).0, remote, false)
        else
          var (remote', ok) := FinishPush(committed.value, remote, f.push);
          Result(if ok then committed.value else Rollback(committed.value, dir, f.undo).0, remote', ok)
  }

  /** The deleter's commit: remove, commit and push, with no way back. */
  function DeleterCommit(c: Clone, remote: History, dir: Path, request: nat, f: Faults): Result {
    var removed := RemoveTracked(c, dir);
    if f.add || removed.None? then Result(c, remote, false)
    else
      var committed := CommitIndex(removed.value, request);
      if f.commit || committed.None? then Result(removed.value, remote, false)
      else
        var (remote', ok) := FinishPush(committed.value, remote, f.push);
        Result(committed.value, remote', ok)
  }

  // -------------------------------------------------------- what a request changes

  /** What a request changes in a tree: an Apply the files it writes below its directory, a Delete all files there. */
  ghost predicate Changes(r: Request, dir: Path, parent: Tree, tree: Tree) {
    forall p :: At(tree, p) == if !Under(dir, p) then At(parent, p)
                               else if r.kind.Delete? then None
                               else WrittenOver(Asked(r, dir), parent, p)
  }

  /** A path of a tree with some writes over it. */
  function WrittenOver(w: Tree, t: Tree, p: Path): Option<string> {
    if p in w then Some(w[p]) else At(t, p)
  }

  /** All that an Apply writes. */
  function Asked(r: Request, dir: Path): Tree {
    Writes(dir, r.yaml, r.files, |r.files|)
  }

  // ------------------------------------------------------------------ tree lemmas

  lemma SameTree(a: Tree, b: Tree)
    requires forall p :: At(a, p) == At(b, p)
    ensures a == b
  {
    forall p ensures p in a <==> p in b {
      assert At(a, p) == At(b, p);
    }
    forall p | p in a ensures a[p] == b[p] {
      assert At(a, p) == At(b, p);
    }
  }

  lemma OverlayAt(t: Tree, paths: set<Path>, from: Tree, p: Path)
    ensures At(Overlay(t, paths, from), p) == if p in paths then At(from, p) else At(t, p)
  {
  }

  lemma AddAt(c: Clone, dir: Path, p: Path)
    requires Add(c, dir).Some?
    ensures At(Add(c, dir).value.index, p) == if Under(dir, p) then At(c.worktree, p) else At(c.index, p)
  {
  }

  /** What is staged below the directory is then just what the worktree has there. */
  lemma AddInside(c: Clone, dir: Path)
    requires Add(c, dir).Some?
    ensures Inside(Add(c, dir).value.index, dir) == Inside(c.worktree, dir)
  {
  }

  /** A fast-forward over an index that equals HEAD leaves an index that equals the new HEAD. */
  lemma PullKeepsIndex(c: Clone, remote: History)
    requires c.index == Head(c) && Pull(c, remote).Some?
    ensures Pull(c, remote).value.index == Head(Pull(c, remote).value)
    ensures c.history <= remote ==> Pull(c, remote).value.history == remote
  {
    var d := Pull(c, remote).value;
    if !(remote <= c.history) {
      var changed := Changed(Head(c), TreeOf(remote));
      forall p ensures At(d.index, p) == At(TreeOf(remote), p) {
        OverlayAt(c.index, changed, TreeOf(remote), p);
        assert p !in changed ==> At(Head(c), p) == At(TreeOf(remote), p);
      }
      SameTree(d.index, TreeOf(remote));
    } else if c.history <= remote {
      assert c.history == remote;
    }
  }

  /** A pull that works loses no commit, and leaves each path at the remote's tip where the heads differ and as it was elsewhere. */
  lemma PullTakes(c: Clone, remote: History, p: Path)
    requires Pull(c, remote).Some?
    ensures var d := Pull(c, remote).value;
            && c.history <= d.history && remote <= d.history && (d.history == c.history || d.history == remote)
            && (c.history < remote ==>
                  && At(d.worktree, p) == (if At(Head(c), p) != At(TreeOf(remote), p) then At(TreeOf(remote), p) else At(c.worktree, p))
                  && At(d.index, p) == (if At(Head(c), p) != At(TreeOf(remote), p) then At(TreeOf(remote), p) else At(c.index, p)))
            && (At(c.worktree, p) != At(Head(c), p) ==> At(d.worktree, p) == At(c.worktree, p))
            && (At(c.index, p) != At(Head(c), p) ==> At(d.index, p) == At(c.index, p))
  {
    if !(remote <= c.history) {
      var changed := Changed(Head(c), TreeOf(remote));
      OverlayAt(c.worktree, changed, TreeOf(remote), p);
      OverlayAt(c.index, changed, TreeOf(remote), p);
      assert p in changed <==> At(Head(c), p) != At(TreeOf(remote), p);
    }
  }

  /**
   * A clone behind the remote without changes to tracked files, and without an untracked file where the
   * remote has one, can always pull. Its worktree is then the remote's tip with its untracked files.
   */
  lemma CleanPulls(c: Clone, remote: History)
    requires c.history <= remote && c.index == Head(c)
    requires forall p :: p in Head(c) ==> At(c.worktree, p) == At(Head(c), p)
    requires forall p :: p in c.worktree && p !in Head(c) ==> p !in TreeOf(remote)
    ensures Pull(c, remote).Some?
    ensures var d := Pull(c, remote).value;
            && d.history == remote && d.index == TreeOf(remote)
            && forall p :: At(d.worktree, p) == if p in c.worktree && p !in Head(c) then At(c.worktree, p) else At(TreeOf(remote), p)
  {
    PullKeepsIndex(c, remote);
    forall p ensures At(Pull(c, remote).value.worktree, p)
                  == if p in c.worktree && p !in Head(c) then At(c.worktree, p) else At(TreeOf(remote), p)
    {
      PullTakes(c, remote, p);
      if remote <= c.history {
        assert remote == c.history;
      }
    }
  }

  /** What is below a directory is what some name leads to from it. */
  lemma UnderExactly(dir: Path, p: Path)
    ensures Under(dir, p) <==> exists rest :: rest != [] && p == dir + rest
  {
    if Under(dir, p) {
      assert p == dir + p[|dir|..];
    }
  }

  /** The tracked files as the worktree has them. */
  function Tracked(c: Clone): Tree {
    map p | p in c.index && p in c.worktree :: c.worktree[p]
  }

  /** The diff against HEAD is empty exactly when committing all tracked files as they are would change nothing. */
  lemma DiffHeadExactly(c: Clone)
    ensures DiffHeadClean(c) <==> Tracked(c) == Head(c)
  {
    forall p ensures At(Tracked(c), p) == if p in c.index then At(c.worktree, p) else None {
    }
    if DiffHeadClean(c) {
      forall p ensures At(Tracked(c), p) == At(Head(c), p) {
        assert p in c.index.Keys + Head(c).Keys || (p !in Tracked(c) && p !in Head(c));
      }
      SameTree(Tracked(c), Head(c));
    }
  }

  /** The two checks of a directory: no tracked file differs from the index, and no other file is there. */
  lemma ChecksExactly(c: Clone, dir: Path)
    ensures DiffDirClean(c, dir) <==> Inside(Tracked(c), dir) == Inside(c.index, dir)
    ensures NoUntracked(c, dir) <==> Inside(c.worktree, dir) == Inside(Tracked(c), dir)
    ensures TrackedUnder(c, dir) <==> Inside(c.index, dir) != map[]
  {
    var w, t, x := Inside(c.worktree, dir), Inside(Tracked(c), dir), Inside(c.index, dir);
    if DiffDirClean(c, dir) {
      forall p ensures At(t, p) == At(x, p) {
        assert p in x ==> At(c.worktree, p) == At(c.index, p);
      }
      SameTree(t, x);
    } else {
      var p :| p in c.index && Under(dir, p) && At(c.worktree, p) != At(c.index, p);
      assert At(t, p) == At(c.worktree, p);
    }
    if NoUntracked(c, dir) {
      forall p ensures At(w, p) == At(t, p) {
      }
      SameTree(w, t);
    } else {
      var p :| p in c.worktree && Under(dir, p) && p !in c.index;
      assert p in w && p !in t;
    }
    if p :| p in c.index && Under(dir, p) {
      assert p in x;
    }
  }

  /** git add has nothing to add exactly when no file is below the directory, tracked or not. */
  lemma AddFailsExactly(c: Clone, dir: Path)
    ensures Add(c, dir).None? <==> forall p :: Under(dir, p) ==> p !in c.index && p !in c.worktree
  {
    if p :| Under(dir, p) && (p in c.index || p in c.worktree) {
      assert p in Inside(c.index, dir) || p in Inside(c.worktree, dir);
    }
  }

  /** git rm takes the tracked files below the directory off index and worktree, and fails where there is none. */
  lemma RemoveAt(c: Clone, dir: Path, p: Path)
    ensures RemoveTracked(c, dir).None? <==> forall q :: Under(dir, q) ==> q !in c.index
    ensures RemoveTracked(c, dir).Some? ==>
              var d := RemoveTracked(c, dir).value;
              && d.history == c.history
              && At(d.index, p) == (if Under(dir, p) then None else At(c.index, p))
              && At(d.worktree, p) == (if Under(dir, p) && p in c.index then None else At(c.worktree, p))
  {
    if q :| Under(dir, q) && q in c.index {
      assert q in Inside(c.index, dir);
    }
  }
}
