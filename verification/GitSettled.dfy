/**
 * What keeps a clone fit for the next request: as long as no push was lost on it, no commit failed
 * over more than a staged manifest, and no rollback failed, it is settled whenever nobody is busy on it.
 */
module GitSettled {
  import opened Paths
  import opened Requests
  import opened GitRepo
  import opened GitLaws
  import opened GitReplicas
  import opened GitChain

  /** The failures after which a clone is left with commits or staged changes of its own. */
  ghost predicate Taints(g: Config, s: Sys, a: Action, x: nat)
    requires Shape(g, s)
  {
    a.Act? && a.i < |g.reqs| && CloneOf(g, a.i) == x &&
    match s.procs[a.i].pc
    case PushCommit => a.c.Fail? || a.c.Undone?
    case CommitStaged => !a.c.Succeed? && !(g.reqs[a.i].kind.Apply? && OnlyManifestStaged(s.clones[x], DirOf(g, a.i)))
    case RollBack => a.c.Undone? && a.c.faults != UNDO_WORKS
    case _ => false
  }

  /** A rollback that works would leave the clone settled. */
  ghost predicate Recovers(c: Clone, dir: Path, remote: History) {
    Settled(Rollback(c, dir, UNDO_WORKS).0, remote)
  }

  /** The part of a request that is on its way back, or out, is or will be settled. */
  ghost predicate TidyPart(dir: Path, pc: Pc, v: Part) {
    if pc.RollBack? then Recovers(v.clone, dir, v.remote) else Busy(pc) || Settled(v.clone, v.remote)
  }

  ghost predicate Tidy(g: Config, s: Sys, x: nat)
    requires Shape(g, s)
  {
    x < |s.clones| ==>
      if BusyClone(g, s, x) then TidyPart(DirOf(g, s.holder.value), s.procs[s.holder.value].pc, PartOf(g, s, s.holder.value))
      else Settled(s.clones[x], s.remote)
  }

  // ------------------------------------------------------------------- one command

  lemma StagedRecovers(c: Clone, dir: Path, remote: History)
    requires c.history <= remote && OnlyManifestStaged(c, dir) && (ManifestPath(dir) in c.index || c.index == Head(c))
    ensures Recovers(c, dir, remote)
  {
    if ManifestPath(dir) in c.index {
      RollbackUnstagesExactly(c, dir);
    }
    RollbackStaysInside(c, dir, UNDO_WORKS, []);
  }

  ghost predicate Untainting(r: Request, dir: Path, p: Proc, v: Part, c: Choice) {
    match p.pc
    case PushCommit => !c.Fail? && !c.Undone?
    case CommitStaged => c.Succeed? || (r.kind.Apply? && OnlyManifestStaged(v.clone, dir))
    case RollBack => c.Undone? ==> c.faults == UNDO_WORKS
    case _ => true
  }

  /** A command of the lock holder that taints nothing keeps its clone tidy. */
  lemma TidyCommand(me: nat, r: Request, dir: Path, p: Proc, v: Part, c: Choice)
    requires ProcInv(me, r, dir, p, v) && Critical(p.pc) && TidyPart(dir, p.pc, v) && Untainting(r, dir, p, v, c)
    ensures var (q, w) := Local(me, r, dir, p, v, c); TidyPart(dir, q.pc, w)
  {
    if p.pc.PullFirst? {
      if Pull(v.clone, v.remote).Some? {
        PullKeepsIndex(v.clone, v.remote);
      }
    } else if p.pc.AddDir? {
      StagedRecovers(v.clone, dir, v.remote);
    } else if p.pc.CommitStaged? {
      TidyCommit(me, r, dir, p, v, c);
    } else if p.pc.PushCommit? {
      TidyPush(me, r, dir, p, v, c);
    }
  }

  lemma TidyCommit(me: nat, r: Request, dir: Path, p: Proc, v: Part, c: Choice)
    requires ProcInv(me, r, dir, p, v) && p.pc.CommitStaged? && Untainting(r, dir, p, v, c)
    ensures var (q, w) := Local(me, r, dir, p, v, c); TidyPart(dir, q.pc, w)
  {
    if r.kind.Apply? && OnlyManifestStaged(v.clone, dir) {
      assert At(v.clone.index, ManifestPath(dir)).Some?;
      StagedRecovers(v.clone, dir, v.remote);
    }
  }

  lemma TidyPush(me: nat, r: Request, dir: Path, p: Proc, v: Part, c: Choice)
    requires ProcInv(me, r, dir, p, v) && p.pc.PushCommit? && Untainting(r, dir, p, v, c)
    ensures var (q, w) := Local(me, r, dir, p, v, c); TidyPart(dir, q.pc, w)
  {
    StagedRecovers(v.clone, dir, v.remote + [Commit(v.clone.index, me)]);
  }

  // ------------------------------------------------------------------- whole system

  lemma TidyStep(g: Config, n: nat, s: Sys, a: Action, x: nat)
    requires Inv(g, n, s) && Enabled(g, s, a) && Behaved(g, s, a) && !Taints(g, s, a, x) && Tidy(g, s, x)
    ensures Tidy(g, Next(g, s, a), x)
  {
    match a
    case Act(i, c) =>
      assert ProcInv(i, g.reqs[i], DirOf(g, i), s.procs[i], PartOf(g, s, i));
      if Critical(s.procs[i].pc) {
        TidyHolder(g, n, s, i, c, x);
      } else {
        TidyIdle(g, n, s, i, c, x);
      }
    case GetterPull(y) => TidyGetter(g, n, s, y, x);
    case Expire =>
  }

  lemma TidyHolder(g: Config, n: nat, s: Sys, i: nat, c: Choice, x: nat)
    requires Inv(g, n, s) && Enabled(g, s, Act(i, c)) && Behaved(g, s, Act(i, c)) && !Taints(g, s, Act(i, c), x)
    requires Tidy(g, s, x) && Critical(s.procs[i].pc)
    ensures Tidy(g, Next(g, s, Act(i, c)), x)
  {
    var t := Next(g, s, Act(i, c));
    var r, dir, p, v := g.reqs[i], DirOf(g, i), s.procs[i], PartOf(g, s, i);
    assert ProcInv(i, r, dir, p, v);
    OwnStep(i, r, dir, p, v, c);
    assert PartOf(g, t, i) == Local(i, r, dir, p, v, c).1;
    if CloneOf(g, i) == x {
      TidyCommand(i, r, dir, p, v, c);
    } else {
      assert s.remote <= t.remote;
    }
  }

  lemma TidyIdle(g: Config, n: nat, s: Sys, i: nat, c: Choice, x: nat)
    requires Inv(g, n, s) && Enabled(g, s, Act(i, c)) && Tidy(g, s, x) && !Critical(s.procs[i].pc)
    ensures Tidy(g, Next(g, s, Act(i, c)), x)
  {
    var r, dir, p, v := g.reqs[i], DirOf(g, i), s.procs[i], PartOf(g, s, i);
    assert ProcInv(i, r, dir, p, v);
    IdleStep(i, r, dir, p, v, c);
    var t := Next(g, s, Act(i, c));
    assert t.clones == s.clones && t.remote == s.remote;
  }

  lemma TidyGetter(g: Config, n: nat, s: Sys, y: nat, x: nat)
    requires Inv(g, n, s) && Enabled(g, s, GetterPull(y)) && Tidy(g, s, x)
    ensures Tidy(g, Next(g, s, GetterPull(y)), x)
  {
    if y == x && BusyClone(g, s, x) {
      GetterHarmless(g, n, s, x, s.holder.value);
    } else if y == x && Pull(s.clones[x], s.remote).Some? {
      PullKeepsIndex(s.clones[x], s.remote);
    }
  }

  // --------------------------------------------------------------------------- runs

  /** The clones on which something went wrong for good in a run. */
  ghost function Tainted(g: Config, s: Sys, trace: seq<Action>): set<nat>
    requires Shape(g, s) && Legal(g, s, trace)
  {
    if trace == [] then {}
    else
      var init, a := trace[..|trace| - 1], trace[|trace| - 1];
      Tainted(g, s, init) + if a.Act? && Taints(g, After(g, s, init), a, CloneOf(g, a.i)) then {CloneOf(g, a.i)} else {}
  }

  /** No request pulls on a clone on which something went wrong for good before. */
  ghost predicate PullsUntainted(g: Config, s: Sys, trace: seq<Action>)
    requires Shape(g, s) && Legal(g, s, trace)
  {
    trace == [] ||
    var init, a := trace[..|trace| - 1], trace[|trace| - 1];
    && PullsUntainted(g, s, init)
    && (a.Act? && After(g, s, init).procs[a.i].pc.PullFirst? ==> CloneOf(g, a.i) !in Tainted(g, s, init))
  }

  /** Over settled clones, a run is behaved when no request pulls after a failure on its own clone; and untainted clones stay tidy. */
  lemma {:induction false} UntaintedIsBehaved(g: Config, s: Sys, trace: seq<Action>)
    requires Initial(g, s) && (forall x :: 0 <= x < |s.clones| ==> Settled(s.clones[x], s.remote))
    requires Legal(g, s, trace) && PullsUntainted(g, s, trace)
    ensures BehavedRun(g, s, trace)
    ensures forall x: nat :: x !in Tainted(g, s, trace) ==> Tidy(g, After(g, s, trace), x)
  {
    if trace != [] {
      var init, a := trace[..|trace| - 1], trace[|trace| - 1];
      UntaintedIsBehaved(g, s, init);
      RunKeepsOrder(g, s, init);
      var t := After(g, s, init);
      PullerSettled(g, |s.remote|, t, a, Tainted(g, s, init));
      forall x: nat | x !in Tainted(g, s, trace) ensures Tidy(g, After(g, s, trace), x) {
        TidyStep(g, |s.remote|, t, a, x);
      }
    }
  }

  lemma PullerSettled(g: Config, n: nat, s: Sys, a: Action, tainted: set<nat>)
    requires Inv(g, n, s) && Enabled(g, s, a) && forall x: nat :: x !in tainted ==> Tidy(g, s, x)
    requires a.Act? && s.procs[a.i].pc.PullFirst? ==> CloneOf(g, a.i) !in tainted
    ensures Behaved(g, s, a)
  {
    if a.Act? && s.procs[a.i].pc.PullFirst? {
      assert ProcInv(a.i, g.reqs[a.i], DirOf(g, a.i), s.procs[a.i], PartOf(g, s, a.i));
      assert Tidy(g, s, CloneOf(g, a.i));
    }
  }
}
