/** Over every behaved run of the replicas, the remote history is one chain of confined, guarded commits. */
module GitChain {
  import opened Paths
  import opened Requests
  import opened GitRepo
  import opened Trimming
  import opened GitReplicas

  // ------------------------------------------------------------------ one step

  /** The remote after a command: as before, or one linked commit longer. */
  ghost predicate Grows(me: nat, r: Request, dir: Path, before: History, after: History) {
    after == before || (after == before + [Commit(TreeOf(after), me)] && Link(r, dir, TreeOf(before), TreeOf(after)))
  }

  /** A command of the lock holder keeps its claims and the chain in order. */
  ghost predicate OwnOutcome(me: nat, r: Request, dir: Path, p: Proc, v: Part, q: Proc, w: Part) {
    && ProcInv(me, r, dir, q, w)
    && w.holder == v.holder
    && Grows(me, r, dir, v.remote, w.remote)
    && (q.committed <==> p.committed || w.remote != v.remote)
    && (w.remote != v.remote ==> !p.committed && HoldsAccepted(r, dir, q, TreeOf(w.remote)))
    && (p.committed ==> q.accepted == p.accepted && q.checked == p.checked)
    && (Critical(q.pc) || q.pc.Releasing?)
  }

  lemma OwnStep(me: nat, r: Request, dir: Path, p: Proc, v: Part, c: Choice)
    requires ProcInv(me, r, dir, p, v) && Critical(p.pc)
    requires c.Succeed? && p.pc.PullFirst? ==> Settled(v.clone, v.remote)
    ensures var (q, w) := Local(me, r, dir, p, v, c); OwnOutcome(me, r, dir, p, v, q, w)
  {
    match p.pc
    case PullFirst => OwnPull(me, r, dir, p, v, c);
    case Write(_) => OwnWrite(me, r, dir, p, v, c);
    case Tool => OwnToolAndDiff(me, r, dir, p, v, c);
    case DiffHead => OwnToolAndDiff(me, r, dir, p, v, c);
    case AddDir => OwnAdd(me, r, dir, p, v, c);
    case RemoveFiles => OwnRemove(me, r, dir, p, v, c);
    case CommitStaged => OwnCommit(me, r, dir, p, v, c);
    case PushCommit => OwnPush(me, r, dir, p, v, c);
    case RollBack =>
    case _ => OwnChecking(me, r, dir, p, v, c);
  }

  /** Outside its critical section a request touches neither clone nor remote, and takes the lock only when it is free. */
  lemma IdleStep(me: nat, r: Request, dir: Path, p: Proc, v: Part, c: Choice)
    requires ProcInv(me, r, dir, p, v) && !Critical(p.pc) && !p.pc.Done?
    requires p.pc.Lock? && c.Succeed? ==> v.holder.None?
    ensures var (q, w) := Local(me, r, dir, p, v, c);
            && w.clone == v.clone && w.remote == v.remote
            && (w.holder == v.holder || (v.holder.None? && w.holder == Some(me)) || (v.holder == Some(me) && w.holder.None?))
            && ProcInv(me, r, dir, q, w)
            && (w.holder == Some(me) ==> Critical(q.pc) || q.pc.Releasing? || q.pc.Done? || v.holder == Some(me))
            && (p.pc.Releasing? ==> q.pc.Done?)
            && q.committed == p.committed && q.accepted == p.accepted && q.checked == p.checked
  {
  }

  // ------------------------------------------------------------------ invariant

  ghost predicate LinkAt(g: Config, s: Sys, k: nat)
    requires Shape(g, s)
  {
    && k < |s.remote| && s.remote[k].request < |g.reqs|
    && s.procs[s.remote[k].request].committed
    && Link(g.reqs[s.remote[k].request], DirOf(g, s.remote[k].request), TreeOf(s.remote[..k]), s.remote[k].tree)
    && HoldsAccepted(g.reqs[s.remote[k].request], DirOf(g, s.remote[k].request),
                     s.procs[s.remote[k].request], s.remote[k].tree)
  }

  /** From the n-th commit on, the remote is a chain of linked commits, one for each committed request. */
  ghost predicate Chain(g: Config, n: nat, s: Sys)
    requires Shape(g, s)
  {
    && n <= |s.remote|
    && (forall k {:trigger LinkAt(g, s, k)} :: n <= k < |s.remote| ==> LinkAt(g, s, k))
    && (forall j, k :: n <= j < k < |s.remote| ==> s.remote[j].request != s.remote[k].request)
    && (forall i :: 0 <= i < |g.reqs| && s.procs[i].committed ==> exists k :: n <= k < |s.remote| && s.remote[k].request == i)
  }

  /** Some request is in the middle of committing on this clone. */
  predicate BusyClone(g: Config, s: Sys, x: nat)
    requires Shape(g, s)
  {
    s.holder.Some? && s.holder.value < |g.reqs| && CloneOf(g, s.holder.value) == x && Busy(s.procs[s.holder.value].pc)
  }

  ghost predicate ProcsInOrder(g: Config, s: Sys)
    requires Shape(g, s)
  {
    forall i :: 0 <= i < |g.reqs| ==> ProcInv(i, g.reqs[i], DirOf(g, i), s.procs[i], PartOf(g, s, i))
  }

  ghost predicate HolderInOrder(g: Config, s: Sys)
    requires Shape(g, s)
  {
    s.holder.Some? ==>
      && s.holder.value < |g.reqs|
      && (Critical(s.procs[s.holder.value].pc) || s.procs[s.holder.value].pc.Releasing? || s.procs[s.holder.value].pc.Done?)
  }

  ghost predicate Inv(g: Config, n: nat, s: Sys) {
    Shape(g, s) && ProcsInOrder(g, s) && HolderInOrder(g, s) && Chain(g, n, s)
  }

  ghost predicate Initial(g: Config, s: Sys) {
    && Shape(g, s) && s.holder.None?
    && (forall i :: 0 <= i < |g.reqs| ==> s.procs[i] == Proc(Start, Ok, false, None, false))
  }

  // ---------------------------------------------------------------- preservation

  lemma ChainGrows(g: Config, n: nat, s: Sys, t: Sys, i: nat)
    requires Shape(g, s) && Shape(g, t) && Chain(g, n, s) && i < |g.reqs|
    requires !s.procs[i].committed && t.procs == s.procs[i := t.procs[i]]
    requires Grows(i, g.reqs[i], DirOf(g, i), s.remote, t.remote)
    requires t.procs[i].committed <==> t.remote != s.remote
    requires t.remote != s.remote ==> HoldsAccepted(g.reqs[i], DirOf(g, i), t.procs[i], TreeOf(t.remote))
    ensures Chain(g, n, t)
  {
    forall k | n <= k < |t.remote| ensures LinkAt(g, t, k) {
      if k < |s.remote| {
        assert LinkAt(g, s, k);
        assert t.remote[..k] == s.remote[..k];
      } else {
        assert t.remote[..k] == s.remote;
      }
    }
    forall j, k | n <= j < k < |t.remote| ensures t.remote[j].request != t.remote[k].request {
      assert LinkAt(g, s, j);
    }
    forall j | 0 <= j < |g.reqs| && t.procs[j].committed
      ensures exists k :: n <= k < |t.remote| && t.remote[k].request == j
    {
      if j == i {
        assert t.remote[|s.remote|].request == i;
      } else {
        var k :| n <= k < |s.remote| && s.remote[k].request == j;
        assert t.remote[k].request == j;
      }
    }
  }

  lemma ChainKept(g: Config, n: nat, s: Sys, t: Sys)
    requires Shape(g, s) && Shape(g, t) && Chain(g, n, s) && t.remote == s.remote
    requires forall i :: 0 <= i < |g.reqs| ==> t.procs[i].committed == s.procs[i].committed
    requires forall i :: 0 <= i < |g.reqs| && s.procs[i].committed ==>
               t.procs[i].accepted == s.procs[i].accepted && t.procs[i].checked == s.procs[i].checked
    ensures Chain(g, n, t)
  {
    forall k | n <= k < |t.remote| ensures LinkAt(g, t, k) {
      assert LinkAt(g, s, k);
    }
  }

  lemma ClaimsNothing(me: nat, r: Request, dir: Path, p: Proc, v: Part, w: Part)
    requires ProcInv(me, r, dir, p, v) && !Critical(p.pc)
    ensures ProcInv(me, r, dir, p, w)
  {
  }

  lemma HolderActs(g: Config, n: nat, s: Sys, i: nat, c: Choice)
    requires Inv(g, n, s) && Enabled(g, s, Act(i, c)) && Behaved(g, s, Act(i, c)) && Critical(s.procs[i].pc)
    ensures Inv(g, n, Next(g, s, Act(i, c)))
  {
    var t := Next(g, s, Act(i, c));
    var r, dir, p, v := g.reqs[i], DirOf(g, i), s.procs[i], PartOf(g, s, i);
    assert ProcInv(i, r, dir, p, v);
    OwnStep(i, r, dir, p, v, c);
    assert PartOf(g, t, i) == Local(i, r, dir, p, v, c).1;
    forall j | 0 <= j < |g.reqs| ensures ProcInv(j, g.reqs[j], DirOf(g, j), t.procs[j], PartOf(g, t, j)) {
      if j != i {
        assert ProcInv(j, g.reqs[j], DirOf(g, j), s.procs[j], PartOf(g, s, j));
        ClaimsNothing(j, g.reqs[j], DirOf(g, j), s.procs[j], PartOf(g, s, j), PartOf(g, t, j));
      }
    }
    if t.remote == s.remote {
      ChainKept(g, n, s, t);
    } else {
      ChainGrows(g, n, s, t, i);
    }
  }

  lemma IdleActs(g: Config, n: nat, s: Sys, i: nat, c: Choice)
    requires Inv(g, n, s) && Enabled(g, s, Act(i, c)) && !Critical(s.procs[i].pc)
    ensures Inv(g, n, Next(g, s, Act(i, c)))
  {
    var t := Next(g, s, Act(i, c));
    var r, dir, p, v := g.reqs[i], DirOf(g, i), s.procs[i], PartOf(g, s, i);
    assert ProcInv(i, r, dir, p, v);
    IdleStep(i, r, dir, p, v, c);
    assert t.clones == s.clones && t.remote == s.remote;
    forall j | 0 <= j < |g.reqs| ensures ProcInv(j, g.reqs[j], DirOf(g, j), t.procs[j], PartOf(g, t, j)) {
      if j != i {
        assert ProcInv(j, g.reqs[j], DirOf(g, j), s.procs[j], PartOf(g, s, j));
        if !Critical(s.procs[j].pc) {
          ClaimsNothing(j, g.reqs[j], DirOf(g, j), s.procs[j], PartOf(g, s, j), PartOf(g, t, j));
        }
      }
    }
    ChainKept(g, n, s, t);
  }

  /** A getter's pull on a clone whose lock holder is past its own pull changes nothing. */
  lemma GetterHarmless(g: Config, n: nat, s: Sys, x: nat, i: nat)
    requires Inv(g, n, s) && i < |g.reqs| && CloneOf(g, i) == x < |s.clones|
    requires Critical(s.procs[i].pc) && !s.procs[i].pc.PullFirst?
    ensures Next(g, s, GetterPull(x)) == s
  {
    assert ProcInv(i, g.reqs[i], DirOf(g, i), s.procs[i], PartOf(g, s, i));
    assert s.clones[x := s.clones[x]] == s.clones;
  }

  lemma GetterPulls(g: Config, n: nat, s: Sys, x: nat)
    requires Inv(g, n, s) && Enabled(g, s, GetterPull(x))
    ensures Inv(g, n, Next(g, s, GetterPull(x)))
  {
    var t := Next(g, s, GetterPull(x));
    if i :| 0 <= i < |g.reqs| && CloneOf(g, i) == x && Critical(s.procs[i].pc) && !s.procs[i].pc.PullFirst? {
      GetterHarmless(g, n, s, x, i);
    } else {
      forall j | 0 <= j < |g.reqs| ensures ProcInv(j, g.reqs[j], DirOf(g, j), t.procs[j], PartOf(g, t, j)) {
        assert ProcInv(j, g.reqs[j], DirOf(g, j), s.procs[j], PartOf(g, s, j));
        OtherCloneInv(j, g.reqs[j], DirOf(g, j), s.procs[j], PartOf(g, s, j), PartOf(g, t, j));
      }
      ChainKept(g, n, s, t);
    }
  }

  /** Only the holder's own clone, once it has pulled, is claimed to be anything. */
  lemma OtherCloneInv(me: nat, r: Request, dir: Path, p: Proc, v: Part, w: Part)
    requires ProcInv(me, r, dir, p, v) && w.holder == v.holder && w.remote == v.remote
    requires w.clone == v.clone || !Critical(p.pc) || p.pc.PullFirst?
    ensures ProcInv(me, r, dir, p, w)
  {
  }

  lemma LeaseExpires(g: Config, n: nat, s: Sys)
    requires Inv(g, n, s) && Enabled(g, s, Expire)
    ensures Inv(g, n, Next(g, s, Expire))
  {
    var t := Next(g, s, Expire);
    forall j | 0 <= j < |g.reqs| ensures ProcInv(j, g.reqs[j], DirOf(g, j), t.procs[j], PartOf(g, t, j)) {
      assert ProcInv(j, g.reqs[j], DirOf(g, j), s.procs[j], PartOf(g, s, j));
      ClaimsNothing(j, g.reqs[j], DirOf(g, j), s.procs[j], PartOf(g, s, j), PartOf(g, t, j));
    }
    ChainKept(g, n, s, t);
  }

  lemma InvStep(g: Config, n: nat, s: Sys, a: Action)
    requires Inv(g, n, s) && Enabled(g, s, a) && Behaved(g, s, a)
    ensures Inv(g, n, Next(g, s, a))
  {
    match a
    case Act(i, c) =>
      if Critical(s.procs[i].pc) {
        HolderActs(g, n, s, i, c);
      } else {
        IdleActs(g, n, s, i, c);
      }
    case GetterPull(x) => GetterPulls(g, n, s, x);
    case Expire => LeaseExpires(g, n, s);
  }

  // ----------------------------------------------------------------------- runs

  /** A trace whose every action is enabled where it is taken. */
  ghost predicate Legal(g: Config, s: Sys, trace: seq<Action>)
    requires Shape(g, s)
    decreases |trace|, 0
  {
    trace == [] ||
    var init := trace[..|trace| - 1];
    Legal(g, s, init) && Enabled(g, After(g, s, init), trace[|trace| - 1])
  }

  ghost function After(g: Config, s: Sys, trace: seq<Action>): (t: Sys)
    requires Shape(g, s) && Legal(g, s, trace)
    ensures Shape(g, t) && |t.clones| == |s.clones|
    decreases |trace|, 1
  {
    if trace == [] then s else Next(g, After(g, s, trace[..|trace| - 1]), trace[|trace| - 1])
  }

  /** Every request that pulls finds its clone settled. */
  ghost predicate BehavedRun(g: Config, s: Sys, trace: seq<Action>)
    requires Shape(g, s)
  {
    Legal(g, s, trace) &&
    (trace == [] ||
     var init := trace[..|trace| - 1];
     BehavedRun(g, s, init) && Behaved(g, After(g, s, init), trace[|trace| - 1]))
  }

  lemma {:induction false} RunKeepsOrder(g: Config, s: Sys, trace: seq<Action>)
    requires Initial(g, s) && BehavedRun(g, s, trace)
    ensures Inv(g, |s.remote|, After(g, s, trace))
    ensures s.remote <= After(g, s, trace).remote
  {
    if trace != [] {
      var init, a := trace[..|trace| - 1], trace[|trace| - 1];
      RunKeepsOrder(g, s, init);
      InvStep(g, |s.remote|, After(g, s, init), a);
      RemoteGrows(g, |s.remote|, After(g, s, init), a);
    }
  }

  lemma RemoteGrows(g: Config, n: nat, s: Sys, a: Action)
    requires Inv(g, n, s) && Enabled(g, s, a) && Behaved(g, s, a)
    ensures s.remote <= Next(g, s, a).remote
  {
    if a.Act? && Critical(s.procs[a.i].pc) {
      assert ProcInv(a.i, g.reqs[a.i], DirOf(g, a.i), s.procs[a.i], PartOf(g, s, a.i));
      OwnStep(a.i, g.reqs[a.i], DirOf(g, a.i), s.procs[a.i], PartOf(g, s, a.i), a.c);
    }
  }

  /**
   * The remote only ever grows, and each commit it gains is made by a different request, over contents
   * that match the old instance it named, if any, and differs from the tree before just in the files
   * that an Apply writes below its directory, or in all files there being gone. A tool has passed that
   * directory just when one is switched on.
   */
  lemma RemoteIsOneChain(g: Config, s: Sys, trace: seq<Action>, k: nat)
    requires Initial(g, s) && BehavedRun(g, s, trace)
    requires |s.remote| <= k < |After(g, s, trace).remote|
    ensures var remote := After(g, s, trace).remote;
            && s.remote <= remote
            && remote[k].request < |g.reqs|
            && Link(g.reqs[remote[k].request], DirOf(g, remote[k].request), TreeOf(remote[..k]), remote[k].tree)
            && HoldsAccepted(g.reqs[remote[k].request], DirOf(g, remote[k].request),
                             After(g, s, trace).procs[remote[k].request], remote[k].tree)
            && forall j :: |s.remote| <= j < |remote| && j != k ==> remote[j].request != remote[k].request
  {
    RunKeepsOrder(g, s, trace);
    assert LinkAt(g, After(g, s, trace), k);
  }

  // -------------------------------------------------------------------- success

  /** What is true at the moment a request reports success. */
  ghost predicate Delivered(r: Request, dir: Path, before: Part, q: Proc, after: Part) {
    && after.clone.history == after.remote && NamesAgree(r)
    && (q.checked <==> r.server.kubectl || (r.kind.Apply? && r.server.kustomize))
    && (r.kind.Apply? ==> forall p :: Under(dir, p) && p in Asked(r, dir) && p in Head(before.clone) ==>
          At(TreeOf(after.remote), p) == Some(Asked(r, dir)[p]))
    && (r.kind.Delete? ==> forall p :: Under(dir, p) ==> p !in TreeOf(after.remote))
    && (after.remote == before.remote || |after.remote| == |before.remote| + 1)
    && (after.remote == before.remote ==> r.kind.Apply? && DiffHeadClean(before.clone))
    && (after.remote != before.remote ==>
          HoldsAccepted(r, dir, q, TreeOf(after.remote)) && Link(r, dir, TreeOf(before.remote), TreeOf(after.remote)))
  }

  lemma LocalSuccess(me: nat, r: Request, dir: Path, p: Proc, v: Part, c: Choice)
    requires ProcInv(me, r, dir, p, v) && Critical(p.pc)
    requires Local(me, r, dir, p, v, c).0.pc.Releasing? && Local(me, r, dir, p, v, c).0.outcome.Ok?
    ensures var (q, w) := Local(me, r, dir, p, v, c); Delivered(r, dir, v, q, w)
  {
    if p.pc.DiffHead? {
      NothingToCommit(r, dir, v.clone);
    }
  }

  /** When the diff finds nothing, HEAD has all that was written to files it knew. */
  lemma NothingToCommit(r: Request, dir: Path, c: Clone)
    requires DiffHeadClean(c) && HasWritten(r, dir, c, |r.files| + 1)
    ensures forall p :: Under(dir, p) && p in Asked(r, dir) && p in Head(c) ==> At(Head(c), p) == Some(Asked(r, dir)[p])
  {
    forall p | Under(dir, p) && p in Asked(r, dir) && p in Head(c)
      ensures At(Head(c), p) == Some(Asked(r, dir)[p])
    {
      assert p in c.index.Keys + Head(c).Keys;
    }
  }

  /**
   * Success implies pushed: when a request reports success, local and remote history are equal and
   * hold what it wrote to every file that HEAD knew (an Apply) or nothing of its instance (a Delete),
   * and the remote gained one linked commit unless the Apply's diff found nothing to commit.
   */
  lemma SuccessIsPushed(g: Config, s: Sys, trace: seq<Action>, i: nat, c: Choice)
    requires Initial(g, s) && BehavedRun(g, s, trace)
    ensures var t := After(g, s, trace);
            Enabled(g, t, Act(i, c)) && Critical(t.procs[i].pc) ==>
              var u := Next(g, t, Act(i, c));
              u.procs[i].pc.Releasing? && u.procs[i].outcome.Ok? ==>
                Delivered(g.reqs[i], DirOf(g, i), PartOf(g, t, i), u.procs[i], PartOf(g, u, i))
  {
    RunKeepsOrder(g, s, trace);
    var t := After(g, s, trace);
    if Enabled(g, t, Act(i, c)) && Critical(t.procs[i].pc) {
      var (q, v) := Local(i, g.reqs[i], DirOf(g, i), t.procs[i], PartOf(g, t, i), c);
      assert ProcInv(i, g.reqs[i], DirOf(g, i), t.procs[i], PartOf(g, t, i));
      assert PartOf(g, Next(g, t, Act(i, c)), i) == v;
      if q.pc.Releasing? && q.outcome.Ok? {
        LocalSuccess(i, g.reqs[i], DirOf(g, i), t.procs[i], PartOf(g, t, i), c);
      }
    }
  }

  // ------------------------------------------------------------------ rejections

  predicate Answering(p: Proc) {
    p.pc.Releasing? || p.pc.Done?
  }

  lemma AnswerKept(me: nat, r: Request, dir: Path, p: Proc, v: Part, c: Choice)
    requires Answering(p)
    ensures var q := Local(me, r, dir, p, v, c).0; Answering(q) && q == p.(pc := q.pc)
  {
  }

  lemma AnswerStep(g: Config, s: Sys, a: Action, i: nat)
    requires Shape(g, s) && Enabled(g, s, a) && i < |g.reqs| && Answering(s.procs[i])
    ensures var p, q := s.procs[i], Next(g, s, a).procs[i]; Answering(q) && q == p.(pc := q.pc)
  {
    if a.Act? && a.i == i {
      AnswerKept(i, g.reqs[i], DirOf(g, i), s.procs[i], PartOf(g, s, i), a.c);
    }
  }

  lemma {:induction false} AnswerForGood(g: Config, s: Sys, before: seq<Action>, after: seq<Action>, i: nat)
    requires Shape(g, s) && Legal(g, s, before) && Legal(g, s, before + after) && i < |g.reqs|
    requires Answering(After(g, s, before).procs[i])
    ensures var p, q := After(g, s, before).procs[i], After(g, s, before + after).procs[i];
            Answering(q) && q == p.(pc := q.pc)
  {
    if after == [] {
      assert before + after == before;
    } else {
      var n := |after| - 1;
      assert (before + after)[..|before + after| - 1] == before + after[..n];
      AnswerForGood(g, s, before, after[..n], i);
      AnswerStep(g, After(g, s, before + after[..n]), after[n], i);
    }
  }

  lemma {:induction false} PrefixLegal(g: Config, s: Sys, trace: seq<Action>, k: nat)
    requires Shape(g, s) && Legal(g, s, trace) && k <= |trace|
    ensures Legal(g, s, trace[..k])
  {
    if k < |trace| {
      assert trace[..|trace| - 1][..k] == trace[..k];
      PrefixLegal(g, s, trace[..|trace| - 1], k);
    } else {
      assert trace[..k] == trace;
    }
  }

  /**
   * With a tool switched on, a request whose tool fails is answered with the error (a Delete without
   * one), and no commit of the remote is ever its own.
   */
  lemma RejectedNeverCommits(g: Config, s: Sys, before: seq<Action>, i: nat, c: Choice, after: seq<Action>)
    requires Initial(g, s) && i < |g.reqs| && BehavedRun(g, s, before + [Act(i, c)] + after)
    ensures Legal(g, s, before)
    ensures var r, t := g.reqs[i], After(g, s, before + [Act(i, c)] + after);
            (r.server.kubectl || (r.kind.Apply? && r.server.kustomize))
            && After(g, s, before).procs[i].pc.Tool? && !c.Succeed? ==>
              && t.procs[i].outcome == (if r.kind.Delete? then Cancelled else Error)
              && forall k :: |s.remote| <= k < |t.remote| ==> t.remote[k].request != i
  {
    var a, whole := Act(i, c), before + [Act(i, c)] + after;
    PrefixLegal(g, s, whole, |before|);
    PrefixLegal(g, s, whole, |before| + 1);
    assert whole[..|before|] == before && whole[..|before| + 1] == before + [a];
    BehavedPrefix(g, s, whole, |before|);
    var t, u := After(g, s, before), After(g, s, whole);
    if g.reqs[i].RunsTool() && t.procs[i].pc.Tool? && !c.Succeed? {
      RunKeepsOrder(g, s, before);
      assert ProcInv(i, g.reqs[i], DirOf(g, i), t.procs[i], PartOf(g, t, i));
      assert (before + [a])[..|before + [a]| - 1] == before;
      AnswerForGood(g, s, before + [a], after, i);
      RunKeepsOrder(g, s, whole);
      forall k | |s.remote| <= k < |u.remote| ensures u.remote[k].request != i {
        assert LinkAt(g, u, k);
      }
    }
  }

  lemma {:induction false} BehavedPrefix(g: Config, s: Sys, trace: seq<Action>, k: nat)
    requires Shape(g, s) && BehavedRun(g, s, trace) && k <= |trace|
    ensures BehavedRun(g, s, trace[..k])
  {
    if k < |trace| {
      assert trace[..|trace| - 1][..k] == trace[..k];
      BehavedPrefix(g, s, trace[..|trace| - 1], k);
    } else {
      assert trace[..k] == trace;
    }
  }

  // -------------------------------------------- the commands of a commit in a row

  predicate Committing(pc: Pc) {
    pc.DiffHead? || pc.AddDir? || pc.RemoveFiles? || Busy(pc)
  }

  function ChoiceFor(pc: Pc, f: Faults): Choice {
    match pc
    case DiffHead => if f.diff then Fail else Succeed
    case AddDir => if f.add then Fail else Succeed
    case RemoveFiles => if f.add then Fail else Succeed
    case CommitStaged => if f.commit then Fail else Succeed
    case PushCommit => if f.push.Lost? then Fail else if f.push.Unanswered? then Choice.Unanswered else Succeed
    case RollBack => Undone(f.undo)
    case _ => Succeed
  }

  function StepsLeft(pc: Pc): nat {
    match pc
    case DiffHead => 5
    case AddDir => 4
    case RemoveFiles => 4
    case CommitStaged => 3
    case PushCommit => 2
    case RollBack => 1
    case _ => 0
  }

  /** One request's commands from its commit on, with nobody in between. */
  function CommitPhase(me: nat, r: Request, dir: Path, p: Proc, v: Part, f: Faults): (Proc, Part)
    decreases StepsLeft(p.pc)
  {
    if !Committing(p.pc) then (p, v)
    else
      var (q, w) := Local(me, r, dir, p, v, ChoiceFor(p.pc, f));
      CommitPhase(me, r, dir, q, w, f)
  }

  /** The machine's commands and the updater's Commit are the same operation. */
  lemma UpdaterCommitPhase(me: nat, r: Request, dir: Path, p: Proc, v: Part, f: Faults)
    requires r.kind.Apply? && p.pc.DiffHead?
    ensures SameAs(v, CommitPhase(me, r, dir, p, v, f), UpdaterCommit(v.clone, v.remote, dir, me, false, f))
  {
    var (p1, v1) := Local(me, r, dir, p, v, ChoiceFor(p.pc, f));
    assert CommitPhase(me, r, dir, p, v, f) == CommitPhase(me, r, dir, p1, v1, f);
    if p1.pc.AddDir? {
      AddDirPhase(me, r, dir, p1, v1, f);
    }
  }

  predicate SameAs(v: Part, run: (Proc, Part), result: Result) {
    && run.1 == Part(result.clone, result.remote, v.holder)
    && run.0.pc.Releasing? && run.0.outcome == if result.ok then Ok else Error
  }

  lemma AddDirPhase(me: nat, r: Request, dir: Path, p: Proc, v: Part, f: Faults)
    requires r.kind.Apply? && p.pc.AddDir? && SeesChanges(v.clone, f)
    ensures SameAs(v, CommitPhase(me, r, dir, p, v, f), UpdaterCommit(v.clone, v.remote, dir, me, false, f))
  {
    var (p1, v1) := Local(me, r, dir, p, v, ChoiceFor(p.pc, f));
    assert CommitPhase(me, r, dir, p, v, f) == CommitPhase(me, r, dir, p1, v1, f);
    if p1.pc.CommitStaged? {
      CommitStagedPhase(me, r, dir, p1, v1, f);
    } else {
      RollBackPhase(me, r, dir, p1, v1, f);
    }
  }

  lemma RollBackPhase(me: nat, r: Request, dir: Path, p: Proc, v: Part, f: Faults)
    requires p.pc.RollBack?
    ensures CommitPhase(me, r, dir, p, v, f) == (Finish(p, Error), v.(clone := Rollback(v.clone, dir, f.undo).0))
  {
  }

  lemma CommitStagedPhase(me: nat, r: Request, dir: Path, p: Proc, v: Part, f: Faults)
    requires p.pc.CommitStaged?
    ensures var (q, w) := CommitPhase(me, r, dir, p, v, f);
            var committed := CommitIndex(v.clone, me);
            var back := r.kind.Apply?;
            && q.pc.Releasing?
            && if f.commit || committed.None?
               then w == v.(clone := if back then Rollback(v.clone, dir, f.undo).0 else v.clone) && q.outcome.Error?
               else var (remote, ok) := FinishPush(committed.value, v.remote, f.push);
                    && w == Part(if ok || !back then committed.value else Rollback(committed.value, dir, f.undo).0, remote, v.holder)
                    && (q.outcome == if ok then Ok else Error)
  {
    var (p1, v1) := Local(me, r, dir, p, v, ChoiceFor(p.pc, f));
    assert CommitPhase(me, r, dir, p, v, f) == CommitPhase(me, r, dir, p1, v1, f);
    if p1.pc.PushCommit? {
      var (p2, v2) := Local(me, r, dir, p1, v1, ChoiceFor(p1.pc, f));
      assert CommitPhase(me, r, dir, p1, v1, f) == CommitPhase(me, r, dir, p2, v2, f);
      if p2.pc.RollBack? {
        RollBackPhase(me, r, dir, p2, v2, f);
      }
    } else if p1.pc.RollBack? {
      RollBackPhase(me, r, dir, p1, v1, f);
    }
  }

  /** The machine's commands and the deleter's Commit are the same operation. */
  lemma DeleterCommitPhase(me: nat, r: Request, dir: Path, p: Proc, v: Part, f: Faults)
    requires r.kind.Delete? && p.pc.RemoveFiles?
    ensures SameAs(v, CommitPhase(me, r, dir, p, v, f), DeleterCommit(v.clone, v.remote, dir, me, f))
  {
    var (p1, v1) := Local(me, r, dir, p, v, ChoiceFor(p.pc, f));
    assert CommitPhase(me, r, dir, p, v, f) == CommitPhase(me, r, dir, p1, v1, f);
    if p1.pc.CommitStaged? {
      CommitStagedPhase(me, r, dir, p1, v1, f);
    }
  }
}
