/**
 * Any number of servers, each with its clone of one remote repository, running Apply and Delete
 * requests under the global etcd lock while getters pull whenever they like.
 */
module GitReplicas {
  import opened Paths
  import opened Requests
  import opened GitRepo
  import opened Trimming

  /** The requests; each works on the clone of its server. */
  datatype Config = Config(reqs: seq<Request>)

  datatype Pc =
    | Start
    | Lock
    | PullFirst
    | Stat
    | CheckTracked
    | CheckUntracked
    | Compare
    | Write(k: nat)
    | Tool
    | DiffHead
    | AddDir
    | RemoveFiles
    | CommitStaged
    | PushCommit
    | RollBack
    | Releasing
    | Done

  /** A cancelled Delete answers without an error although nothing was removed. */
  datatype Outcome = Ok | Cancelled | Error

  /**
   * The control point and answer of a request. The other fields are history: whether its commit has
   * reached the remote, the instance directory that its tool step let pass, and whether a tool looked at it.
   */
  datatype Proc = Proc(pc: Pc, outcome: Outcome, committed: bool, accepted: Option<Tree>, checked: bool)

  /** A command works, fails for a reason of its own, is a push that arrived unanswered, or is a rollback with failures. */
  datatype Choice = Succeed | Fail | Unanswered | Undone(faults: UndoFaults)

  datatype Sys = Sys(clones: seq<Clone>, remote: History, holder: Option<nat>, procs: seq<Proc>)

  datatype Action = Act(i: nat, c: Choice) | GetterPull(clone: nat) | Expire

  /** What one request can touch: its clone, the remote and the lock. */
  datatype Part = Part(clone: Clone, remote: History, holder: Option<nat>)

  function Finish(p: Proc, outcome: Outcome): Proc {
    p.(pc := Releasing, outcome := outcome)
  }

  /** One command of one request. */
  function Local(me: nat, r: Request, dir: Path, p: Proc, v: Part, c: Choice): (Proc, Part) {
    var file := ManifestPath(dir);
    match p.pc
    case Start =>
      (if r.oldInstance.Some? && r.name != r.oldInstance.value.name then Finish(p, Error) else p.(pc := Lock), v)
    case Lock => if c.Succeed? then (p.(pc := PullFirst), v.(holder := Some(me))) else (Finish(p, Error), v)
    case PullFirst =>
      var pulled := Pull(v.clone, v.remote);
      if c.Succeed? && pulled.Some?
      then (p.(pc := if r.kind.Delete? then Stat else CheckTracked), v.(clone := pulled.value))
      else (Finish(p, Error), v)
    case Stat => (if file in v.clone.worktree then p.(pc := CheckTracked) else Finish(p, Error), v)
    case CheckTracked => (if c.Succeed? && DiffDirClean(v.clone, dir) then p.(pc := CheckUntracked) else Finish(p, Error), v)
    case CheckUntracked => (if c.Succeed? && NoUntracked(v.clone, dir) then p.(pc := Compare) else Finish(p, Error), v)
    case Compare =>
      (if Matches(r, At(v.clone.worktree, file)) && (r.oldInstance.Some? ==> c.Succeed?) then p.(pc := if r.kind.Delete? then Tool else Write(0))
       else Finish(p, Error), v)
    case Write(k) =>
      if !c.Succeed? then (Finish(p, Error), v)
      else if k > |r.files| then (p.(pc := Tool), v)
      else (p.(pc := Write(k + 1)), v.(clone := WriteNext(v.clone, r, dir, k)))
    case Tool =>
      (if !r.RunsTool() || c.Succeed?
       then p.(pc := if r.kind.Delete? then RemoveFiles else DiffHead,
               accepted := Some(Inside(v.clone.worktree, dir)), checked := r.RunsTool())
       else Finish(p, if r.kind.Delete? then Cancelled else Error), v)
    case DiffHead => (if c.Succeed? && DiffHeadClean(v.clone) then Finish(p, Ok) else p.(pc := AddDir), v)
    case AddDir =>
      var added := Add(v.clone, dir);
      if c.Succeed? && added.Some? then (p.(pc := CommitStaged), v.(clone := added.value)) else (p.(pc := RollBack), v)
    case RemoveFiles =>
      var removed := RemoveTracked(v.clone, dir);
      if c.Succeed? && removed.Some? then (p.(pc := CommitStaged), v.(clone := removed.value)) else (Finish(p, Error), v)
    case CommitStaged =>
      var committed := CommitIndex(v.clone, me);
      if c.Succeed? && committed.Some? then (p.(pc := PushCommit), v.(clone := committed.value))
      else if r.kind.Apply? then (p.(pc := RollBack), v)
      else (Finish(p, Error), v)
    case PushCommit =>
      var pushed := Push(v.clone, v.remote);
      if c.Fail? || c.Undone? || pushed.None? then (if r.kind.Apply? then p.(pc := RollBack) else Finish(p, Error), v)
      else if c.Unanswered? then (if r.kind.Apply? then p.(pc := RollBack, committed := true) else Finish(p, Error).(committed := true), v.(remote := pushed.value))
      else (Finish(p, Ok).(committed := true), v.(remote := pushed.value))
    case RollBack =>
      (Finish(p, Error), v.(clone := Rollback(v.clone, dir, if c.Undone? then c.faults else UNDO_WORKS).0))
    case Releasing =>
      (p.(pc := Done), if c.Succeed? && v.holder == Some(me) then v.(holder := None) else v)
    case Done => (p, v)
  }

  /** The k-th file an Init writes: first the manifest, then the request's files. */
  function WriteNext(c: Clone, r: Request, dir: Path, k: nat): Clone
    requires k <= |r.files|
  {
    if k == 0 then c.(worktree := c.worktree[ManifestPath(dir) := r.yaml])
    else c.(worktree := c.worktree[FilePath(dir, r.files[k - 1].name) := r.files[k - 1].contents])
  }

  function DirOf(g: Config, i: nat): Path
    requires i < |g.reqs|
  {
    g.reqs[i].Dir()
  }

  function CloneOf(g: Config, i: nat): nat
    requires i < |g.reqs|
  {
    g.reqs[i].server.id
  }

  predicate Shape(g: Config, s: Sys) {
    |s.procs| == |g.reqs| && forall i :: 0 <= i < |g.reqs| ==> CloneOf(g, i) < |s.clones|
  }

  function PartOf(g: Config, s: Sys, i: nat): Part
    requires Shape(g, s) && i < |g.reqs|
  {
    Part(s.clones[CloneOf(g, i)], s.remote, s.holder)
  }

  predicate Enabled(g: Config, s: Sys, a: Action)
    requires Shape(g, s)
  {
    match a
    case Act(i, c) => i < |g.reqs| && !s.procs[i].pc.Done? && (s.procs[i].pc.Lock? && c.Succeed? ==> s.holder.None?)
    case GetterPull(x) => x < |s.clones|
    case Expire => s.holder.Some? && s.holder.value < |g.reqs| && s.procs[s.holder.value].pc.Done?
  }

  function Next(g: Config, s: Sys, a: Action): (t: Sys)
    requires Shape(g, s) && Enabled(g, s, a)
    ensures Shape(g, t) && |t.clones| == |s.clones|
  {
    match a
    case Act(i, c) =>
      var (q, v) := Local(i, g.reqs[i], DirOf(g, i), s.procs[i], PartOf(g, s, i), c);
      Sys(s.clones[CloneOf(g, i) := v.clone], v.remote, v.holder, s.procs[i := q])
    case GetterPull(x) =>
      var pulled := Pull(s.clones[x], s.remote);
      if pulled.None? then s else s.(clones := s.clones[x := pulled.value])
    case Expire => s.(holder := None)
  }

  /** The clone is behind the remote or level with it, and nothing is staged. */
  ghost predicate Settled(c: Clone, remote: History) {
    c.history <= remote && c.index == Head(c)
  }

  /** The hypothesis: a request that pulls finds its clone settled, whatever else has failed anywhere. */
  ghost predicate Behaved(g: Config, s: Sys, a: Action)
    requires Shape(g, s)
  {
    a.Act? && a.i < |g.reqs| && a.c.Succeed? && s.procs[a.i].pc.PullFirst? ==> Settled(s.clones[CloneOf(g, a.i)], s.remote)
  }

  // ------------------------------------------------------------------ invariant

  /** Between acquiring the lock and the end of the commit. */
  predicate Critical(pc: Pc) {
    !pc.Start? && !pc.Lock? && !pc.Releasing? && !pc.Done?
  }

  /** Control points at which the clone has staged or committed changes of its own. */
  predicate Busy(pc: Pc) {
    pc.CommitStaged? || pc.PushCommit? || pc.RollBack?
  }

  /** A new commit of the chain: made by a request over the contents its caller named, with just its own changes. */
  ghost predicate Link(r: Request, dir: Path, parent: Tree, tree: Tree) {
    && tree != parent
    && NamesAgree(r) && NamesCurrent(r, At(parent, ManifestPath(dir)))
    && Changes(r, dir, parent, tree)
    && (r.kind.Delete? ==> ManifestPath(dir) in parent)
  }

  /** The comparison is behind the request, so what HEAD holds is what its caller named. */
  predicate Compared(pc: Pc) {
    pc.Write? || pc.Tool? || pc.DiffHead? || pc.AddDir? || pc.RemoveFiles? || pc.CommitStaged?
  }

  /** A tool looked at the directory just when one is switched on, and below it the tree of an Apply is what passed. */
  ghost predicate HoldsAccepted(r: Request, dir: Path, p: Proc, tree: Tree) {
    && (p.checked <==> r.server.kubectl || (r.kind.Apply? && r.server.kustomize))
    && (r.kind.Apply? ==> p.accepted == Some(Inside(tree, dir)))
  }

  /** Below the directory the worktree is HEAD with the first k writes of an Apply over it. */
  ghost predicate HasWritten(r: Request, dir: Path, c: Clone, k: nat)
    requires k <= |r.files| + 1
  {
    forall p :: Under(dir, p) ==>
      At(c.worktree, p) == WrittenOver(if k == 0 then map[] else Writes(dir, r.yaml, r.files, k - 1), Head(c), p)
  }

  /** What the lock holder can rely on about its own clone, once it has pulled. */
  ghost predicate PartFacts(me: nat, r: Request, dir: Path, p: Proc, v: Part) {
    var c, file := v.clone, ManifestPath(dir);
    && v.holder == Some(me)
    && (!p.pc.PullFirst? ==> v.remote <= c.history)
    && (!p.pc.PullFirst? && !Busy(p.pc) ==> c.index == Head(c))
    && (!p.pc.PullFirst? && !p.pc.PushCommit? && !p.pc.RollBack? ==> c.history == v.remote && !p.committed)
    && (p.pc.Stat? ==> r.kind.Delete?)
    && (r.kind.Delete? && (p.pc.CheckTracked? || p.pc.CheckUntracked? || p.pc.Compare?) ==> file in c.worktree)
    && (p.pc.CheckUntracked? || p.pc.Compare? ==> DiffDirClean(c, dir))
    && (p.pc.Compare? ==> NoUntracked(c, dir))
    && NamesAgree(r)
    && (Compared(p.pc) ==> NamesCurrent(r, At(Head(c), file)) && (r.kind.Delete? ==> file in Head(c)))
    && (p.pc.Write? ==> r.kind.Apply? && p.pc.k <= |r.files| + 1 && HasWritten(r, dir, c, p.pc.k))
    && (r.kind.Apply? && (p.pc.Tool? || p.pc.DiffHead? || p.pc.AddDir?) ==> HasWritten(r, dir, c, |r.files| + 1))
    && (p.pc.DiffHead? || p.pc.AddDir? || p.pc.RemoveFiles? ==> HoldsAccepted(r, dir, p, c.worktree))
    && (p.pc.CommitStaged? || p.pc.PushCommit? ==> HoldsAccepted(r, dir, p, c.index))
    && (p.pc.DiffHead? || p.pc.AddDir? || p.pc.RollBack? ==> r.kind.Apply?)
    && (p.pc.RemoveFiles? ==> r.kind.Delete?)
    && (p.pc.CommitStaged? ==> Changes(r, dir, Head(c), c.index))
    && (p.pc.PushCommit? ==>
          && c.history == v.remote + [Commit(c.index, me)] && !p.committed
          && Link(r, dir, TreeOf(v.remote), c.index))
  }

  ghost predicate ProcInv(me: nat, r: Request, dir: Path, p: Proc, v: Part) {
    && (Critical(p.pc) ==> PartFacts(me, r, dir, p, v))
    && (p.pc.Start? || p.pc.Lock? || p.pc.PullFirst? ==> !p.committed)
    && (p.pc.Lock? ==> NamesAgree(r))
  }

  // --------------------------------------------------------------- own commands

  lemma OwnChecking(me: nat, r: Request, dir: Path, p: Proc, v: Part, c: Choice)
    requires ProcInv(me, r, dir, p, v)
    requires p.pc.Stat? || p.pc.CheckTracked? || p.pc.CheckUntracked? || p.pc.Compare?
    ensures var (q, w) := Local(me, r, dir, p, v, c); ProcInv(me, r, dir, q, w) && w == v
  {
    ManifestIsUnder(dir);
    MatchesExactly(r, At(v.clone.worktree, ManifestPath(dir)));
    if p.pc.Compare? {
      CleanAtHead(v.clone, dir);
    }
  }

  /** In a clean directory of an unstaged clone the worktree is HEAD. */
  lemma CleanAtHead(c: Clone, dir: Path)
    requires CleanDir(c, dir) && c.index == Head(c)
    ensures forall p :: Under(dir, p) ==> At(c.worktree, p) == At(Head(c), p)
  {
    forall p | Under(dir, p) ensures At(c.worktree, p) == At(c.index, p) {
    }
  }

  lemma OwnPull(me: nat, r: Request, dir: Path, p: Proc, v: Part, c: Choice)
    requires ProcInv(me, r, dir, p, v) && p.pc.PullFirst?
    requires c.Succeed? ==> Settled(v.clone, v.remote)
    ensures var (q, w) := Local(me, r, dir, p, v, c); ProcInv(me, r, dir, q, w)
  {
    if Pull(v.clone, v.remote).Some? && c.Succeed? {
      PullKeepsIndex(v.clone, v.remote);
    }
  }

  lemma OwnWrite(me: nat, r: Request, dir: Path, p: Proc, v: Part, c: Choice)
    requires ProcInv(me, r, dir, p, v) && p.pc.Write?
    ensures var (q, w) := Local(me, r, dir, p, v, c); ProcInv(me, r, dir, q, w)
  {
    if p.pc.k <= |r.files| {
      OneMoreWritten(v.clone, r, dir, p.pc.k);
    }
  }

  lemma OneMoreWritten(c: Clone, r: Request, dir: Path, k: nat)
    requires k <= |r.files| && HasWritten(r, dir, c, k)
    ensures HasWritten(r, dir, WriteNext(c, r, dir, k), k + 1)
  {
  }

  lemma OwnToolAndDiff(me: nat, r: Request, dir: Path, p: Proc, v: Part, c: Choice)
    requires ProcInv(me, r, dir, p, v) && (p.pc.Tool? || p.pc.DiffHead?)
    ensures var (q, w) := Local(me, r, dir, p, v, c); ProcInv(me, r, dir, q, w)
  {
  }

  lemma OwnAdd(me: nat, r: Request, dir: Path, p: Proc, v: Part, c: Choice)
    requires ProcInv(me, r, dir, p, v) && p.pc.AddDir?
    ensures var (q, w) := Local(me, r, dir, p, v, c); ProcInv(me, r, dir, q, w)
  {
    ManifestIsUnder(dir);
    if Add(v.clone, dir).Some? {
      forall p ensures At(Add(v.clone, dir).value.index, p) == if Under(dir, p) then At(v.clone.worktree, p) else At(v.clone.index, p) {
        AddAt(v.clone, dir, p);
      }
      AddInside(v.clone, dir);
    }
  }

  lemma OwnRemove(me: nat, r: Request, dir: Path, p: Proc, v: Part, c: Choice)
    requires ProcInv(me, r, dir, p, v) && p.pc.RemoveFiles?
    ensures var (q, w) := Local(me, r, dir, p, v, c); ProcInv(me, r, dir, q, w)
  {
  }

  lemma OwnCommit(me: nat, r: Request, dir: Path, p: Proc, v: Part, c: Choice)
    requires ProcInv(me, r, dir, p, v) && p.pc.CommitStaged?
    ensures var (q, w) := Local(me, r, dir, p, v, c); ProcInv(me, r, dir, q, w)
  {
  }

  lemma OwnPush(me: nat, r: Request, dir: Path, p: Proc, v: Part, c: Choice)
    requires ProcInv(me, r, dir, p, v) && p.pc.PushCommit?
    ensures var (q, w) := Local(me, r, dir, p, v, c);
            && ProcInv(me, r, dir, q, w)
            && w == v.(remote := w.remote) && (q.committed <==> w.remote != v.remote)
            && (q.committed ==> w.remote == v.remote + [Commit(v.clone.index, me)] == w.clone.history
                                && HoldsAccepted(r, dir, q, v.clone.index))
            && (q.outcome.Ok? && q.pc.Releasing? ==> q.committed || p.outcome.Ok?)
  {
  }
}
