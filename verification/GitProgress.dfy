/** What a git request comes to when nobody is in its way: the whole of its code, from start to answer. */
module GitProgress {
  import opened Paths
  import opened Requests
  import opened GitRepo
  import opened Trimming
  import opened GitLaws
  import opened GitReplicas
  import opened GitChain
  import P = GitPhases
  import A = GitAdapter

  // ------------------------------------------------------------ one request's code

  function StepsLeft(r: Request, pc: Pc): nat {
    match pc
    case Start => 20 + |r.files|
    case Lock => 19 + |r.files|
    case PullFirst => 18 + |r.files|
    case Stat => 17 + |r.files|
    case CheckTracked => 16 + |r.files|
    case CheckUntracked => 15 + |r.files|
    case Compare => 14 + |r.files|
    case Write(k) => if k <= |r.files| then 13 + |r.files| - k else 12
    case Tool => 11
    case DiffHead => 10
    case AddDir => 9
    case RemoveFiles => 9
    case CommitStaged => 8
    case PushCommit => 7
    case RollBack => 6
    case Releasing => 1
    case Done => 0
  }

  lemma Falls(me: nat, r: Request, p: Proc, v: Part)
    requires !p.pc.Done?
    ensures StepsLeft(r, Local(me, r, r.Dir(), p, v, Succeed).0.pc) < StepsLeft(r, p.pc)
  {
    if Committing(p.pc) || p.pc.Releasing? || p.pc.Tool? {
      FallsCommitting(me, r, p, v);
    } else {
      FallsInitialising(me, r, p, v);
    }
  }

  lemma FallsCommitting(me: nat, r: Request, p: Proc, v: Part)
    requires Committing(p.pc) || p.pc.Releasing? || p.pc.Tool?
    ensures StepsLeft(r, Local(me, r, r.Dir(), p, v, Succeed).0.pc) < StepsLeft(r, p.pc)
  {
    if Busy(p.pc) {
      FallsBusy(me, r, p, v);
    }
  }

  lemma FallsBusy(me: nat, r: Request, p: Proc, v: Part)
    requires Busy(p.pc)
    ensures StepsLeft(r, Local(me, r, r.Dir(), p, v, Succeed).0.pc) < StepsLeft(r, p.pc)
  {
  }

  lemma FallsInitialising(me: nat, r: Request, p: Proc, v: Part)
    requires P.Initialising(p.pc) || p.pc.Start? || p.pc.Lock?
    ensures StepsLeft(r, Local(me, r, r.Dir(), p, v, Succeed).0.pc) < StepsLeft(r, p.pc)
  {
  }

  /** All its commands to the end, each of which works, with nobody in between. */
  function RunAlone(me: nat, r: Request, p: Proc, v: Part): (Proc, Part)
    decreases StepsLeft(r, p.pc)
  {
    if p.pc.Done? then (p, v)
    else
      var (q, w) := Local(me, r, r.Dir(), p, v, Succeed);
      Falls(me, r, p, v);
      RunAlone(me, r, q, w)
  }

  lemma AloneStep(me: nat, r: Request, p: Proc, v: Part)
    requires !p.pc.Done?
    ensures var (q, w) := Local(me, r, r.Dir(), p, v, Succeed); RunAlone(me, r, p, v) == RunAlone(me, r, q, w)
  {
  }

  /** An Init on the way is the adapter's Init with nothing failing. */
  lemma {:induction false} InitJoins(me: nat, r: Request, p: Proc, v: Part)
    requires P.Initialising(p.pc) && (p.pc.Write? ==> p.pc.k <= |r.files| + 1)
    ensures var (q, w) := P.InitPhase(me, r, p, v, A.INIT_WORKS, |r.files| + 2);
            RunAlone(me, r, p, v) == RunAlone(me, r, q, w)
    decreases StepsLeft(r, p.pc)
  {
    P.PhaseStep(me, r, p, v, A.INIT_WORKS, |r.files| + 2);
    AloneStep(me, r, p, v);
    var (q, w) := Local(me, r, r.Dir(), p, v, Succeed);
    if P.Initialising(q.pc) {
      InitJoins(me, r, q, w);
    }
  }

  lemma WorksAlike(me: nat, r: Request, p: Proc, v: Part)
    requires Committing(p.pc)
    ensures Local(me, r, r.Dir(), p, v, GitChain.ChoiceFor(p.pc, COMMIT_WORKS)) == Local(me, r, r.Dir(), p, v, Succeed)
  {
  }

  lemma CommitStep(me: nat, r: Request, p: Proc, v: Part) returns (q: Proc, w: Part)
    requires Committing(p.pc)
    ensures RunAlone(me, r, p, v) == RunAlone(me, r, q, w)
    ensures CommitPhase(me, r, r.Dir(), p, v, COMMIT_WORKS) == CommitPhase(me, r, r.Dir(), q, w, COMMIT_WORKS)
    ensures StepsLeft(r, q.pc) < StepsLeft(r, p.pc)
  {
    AloneStep(me, r, p, v);
    WorksAlike(me, r, p, v);
    Falls(me, r, p, v);
    var step := Local(me, r, r.Dir(), p, v, Succeed);
    q, w := step.0, step.1;
  }

  /** So is a Commit. */
  lemma {:induction false} CommitJoins(me: nat, r: Request, p: Proc, v: Part)
    ensures var (q, w) := CommitPhase(me, r, r.Dir(), p, v, COMMIT_WORKS);
            RunAlone(me, r, p, v) == RunAlone(me, r, q, w)
    decreases StepsLeft(r, p.pc)
  {
    if Committing(p.pc) {
      var q, w := CommitStep(me, r, p, v);
      CommitJoins(me, r, q, w);
    }
  }

  /** The request finds what it asks for. */
  ghost predicate Passes(r: Request, c: Clone) {
    && CleanDir(c, r.Dir()) && NamesCurrent(r, At(c.worktree, ManifestPath(r.Dir())))
    && (r.kind.Delete? ==> ManifestPath(r.Dir()) in c.worktree)
  }

  /** The clone that reaches the tool step. */
  function Prepared(r: Request, c: Clone): Clone {
    if r.kind.Apply? then Written(c, r.Dir(), r.yaml, r.files) else c
  }

  lemma InitAlone(me: nat, r: Request, p: Proc, v: Part)
    requires p.pc.PullFirst?
    ensures var run := P.InitPhase(me, r, p, v, A.INIT_WORKS, |r.files| + 2);
            var pulled := Pull(v.clone, v.remote);
            run == if pulled.None? then (Finish(p, Error), v)
                   else if !Passes(r, pulled.value) then (Finish(p, Error), v.(clone := pulled.value))
                   else (p.(pc := Tool), v.(clone := Prepared(r, pulled.value)))
  {
    var n := |r.files| + 2;
    P.PhaseStep(me, r, p, v, A.INIT_WORKS, n);
    var pulled := Pull(v.clone, v.remote);
    if pulled.Some? {
      var w := v.(clone := pulled.value);
      if r.kind.Delete? {
        P.PhaseStep(me, r, p.(pc := Stat), w, A.INIT_WORKS, n);
      }
      if r.kind.Apply? || ManifestPath(r.Dir()) in w.clone.worktree {
        ChecksAlone(me, r, p.(pc := CheckTracked), w);
      }
    }
  }

  lemma ChecksAlone(me: nat, r: Request, p: Proc, v: Part)
    requires p.pc.CheckTracked? && (r.kind.Delete? ==> ManifestPath(r.Dir()) in v.clone.worktree)
    ensures P.InitPhase(me, r, p, v, A.INIT_WORKS, |r.files| + 2)
         == if !Passes(r, v.clone) then (Finish(p, Error), v)
            else (p.(pc := Tool), v.(clone := Prepared(r, v.clone)))
  {
    P.ChecksPhase(me, r, p, v, A.INIT_WORKS, |r.files| + 2);
    if Passes(r, v.clone) && r.kind.Apply? {
      P.WritePhase(me, r, p.(pc := Write(0)), v, v.clone.worktree, A.INIT_WORKS, |r.files| + 2);
    }
  }

  /** What a whole request does to a clone and the remote, as one operation. */
  function Whole(c: Clone, remote: History, r: Request, request: nat): Result {
    if r.kind.Apply? then Attempt(c, remote, r, request, COMMIT_WORKS)
    else AttemptDelete(c, remote, r, request, COMMIT_WORKS)
  }

  /** The end of a request: its answer, its clone and the remote, and the lock given back. */
  predicate EndsAs(run: (Proc, Part), result: Result) {
    && run.0.pc.Done? && (run.0.outcome == if result.ok then Ok else Error)
    && run.1 == Part(result.clone, result.remote, None)
  }

  lemma AnswerAlone(me: nat, r: Request, p: Proc, v: Part)
    requires p.pc.Releasing? && v.holder == Some(me)
    ensures RunAlone(me, r, p, v) == (p.(pc := Done), v.(holder := None))
  {
    AloneStep(me, r, p, v);
  }

  lemma ToolAlone(me: nat, r: Request, p: Proc, v: Part)
    requires p.pc.Tool? && v.holder == Some(me)
    ensures EndsAs(RunAlone(me, r, p, v),
                   if r.kind.Apply? then UpdaterCommit(v.clone, v.remote, r.Dir(), me, false, COMMIT_WORKS)
                   else DeleterCommit(v.clone, v.remote, r.Dir(), me, COMMIT_WORKS))
  {
    AloneStep(me, r, p, v);
    var (q, w) := Local(me, r, r.Dir(), p, v, Succeed);
    CommitJoins(me, r, q, w);
    if r.kind.Apply? {
      UpdaterCommitPhase(me, r, r.Dir(), q, w, COMMIT_WORKS);
    } else {
      DeleterCommitPhase(me, r, r.Dir(), q, w, COMMIT_WORKS);
    }
    var (q', w') := CommitPhase(me, r, r.Dir(), q, w, COMMIT_WORKS);
    AnswerAlone(me, r, q', w');
  }

  /** From the pull on, a request left alone is one operation on its clone and the remote. */
  lemma PullAlone(me: nat, r: Request, p: Proc, v: Part)
    requires p.pc.PullFirst? && v.holder == Some(me)
    ensures EndsAs(RunAlone(me, r, p, v), Whole(v.clone, v.remote, r, me))
  {
    InitJoins(me, r, p, v);
    InitAlone(me, r, p, v);
    var (q, w) := P.InitPhase(me, r, p, v, A.INIT_WORKS, |r.files| + 2);
    var pulled := Pull(v.clone, v.remote);
    if pulled.Some? {
      MatchesExactly(r, At(pulled.value.worktree, ManifestPath(r.Dir())));
    }
    if q.pc.Tool? {
      ToolAlone(me, r, q, w);
    } else {
      AnswerAlone(me, r, q, w);
    }
  }

  // ------------------------------------------------------------- the whole system

  lemma {:induction false} AfterCons(g: Config, s: Sys, a: Action, trace: seq<Action>)
    requires Shape(g, s) && Enabled(g, s, a) && Legal(g, Next(g, s, a), trace)
    ensures Legal(g, s, [a] + trace)
    ensures After(g, s, [a] + trace) == After(g, Next(g, s, a), trace)
  {
    var whole := [a] + trace;
    if trace == [] {
      assert whole[..0] == [] && whole[0] == a;
    } else {
      var n := |trace| - 1;
      AfterCons(g, s, a, trace[..n]);
      assert whole[..|whole| - 1] == [a] + trace[..n];
    }
  }

  predicate CanGoOn(p: Proc, v: Part) {
    p.pc.Start? || p.pc.Lock? ==> v.holder.None?
  }

  lemma GoesOn(me: nat, r: Request, p: Proc, v: Part)
    requires CanGoOn(p, v) && !p.pc.Done?
    ensures var (q, w) := Local(me, r, r.Dir(), p, v, Succeed); CanGoOn(q, w)
  {
  }

  /** In any state with the lock free, a request can run to its end on its own, and that run is the one above. */
  lemma {:induction false} RunsAlone(g: Config, s: Sys, i: nat) returns (trace: seq<Action>)
    requires Shape(g, s) && i < |g.reqs| && CanGoOn(s.procs[i], PartOf(g, s, i))
    ensures Legal(g, s, trace) && forall a :: a in trace ==> a == Act(i, Succeed)
    ensures (After(g, s, trace).procs[i], PartOf(g, After(g, s, trace), i))
         == RunAlone(i, g.reqs[i], s.procs[i], PartOf(g, s, i))
    decreases StepsLeft(g.reqs[i], s.procs[i].pc)
  {
    if s.procs[i].pc.Done? {
      trace := [];
    } else {
      var a := Act(i, Succeed);
      StepAlone(g, s, i);
      var rest := RunsAlone(g, Next(g, s, a), i);
      AfterCons(g, s, a, rest);
      trace := [a] + rest;
    }
  }

  lemma StepAlone(g: Config, s: Sys, i: nat)
    requires Shape(g, s) && i < |g.reqs| && CanGoOn(s.procs[i], PartOf(g, s, i)) && !s.procs[i].pc.Done?
    ensures Enabled(g, s, Act(i, Succeed))
    ensures var t := Next(g, s, Act(i, Succeed));
            && CanGoOn(t.procs[i], PartOf(g, t, i))
            && StepsLeft(g.reqs[i], t.procs[i].pc) < StepsLeft(g.reqs[i], s.procs[i].pc)
            && RunAlone(i, g.reqs[i], s.procs[i], PartOf(g, s, i)) == RunAlone(i, g.reqs[i], t.procs[i], PartOf(g, t, i))
  {
    var r, p, v := g.reqs[i], s.procs[i], PartOf(g, s, i);
    GoesOn(i, r, p, v);
    AloneStep(i, r, p, v);
    var (q, w) := Local(i, r, r.Dir(), p, v, Succeed);
    assert PartOf(g, Next(g, s, Act(i, Succeed)), i) == w;
    Falls(i, r, p, v);
  }

  /**
   * From any state with the lock free, a request that has not started can run to its answer: an error
   * without touching anything when the name of its old instance is another, and otherwise what the whole
   * operation on its clone and the remote answers and leaves. GitLaws says what that is on a clean clone
   * (`WorkingApply` and `WorkingDelete`).
   */
  lemma LeftAlone(g: Config, s: Sys, i: nat) returns (trace: seq<Action>)
    requires Shape(g, s) && i < |g.reqs| && s.holder.None? && s.procs[i].pc.Start?
    ensures Legal(g, s, trace) && forall a :: a in trace ==> a == Act(i, Succeed)
    ensures var v, t := PartOf(g, s, i), After(g, s, trace);
            EndsAs((t.procs[i], PartOf(g, t, i)),
                   if NamesAgree(g.reqs[i]) then Whole(v.clone, v.remote, g.reqs[i], i) else Result(v.clone, v.remote, false))
  {
    trace := RunsAlone(g, s, i);
    StartAlone(i, g.reqs[i], s.procs[i], PartOf(g, s, i));
  }

  lemma StartAlone(me: nat, r: Request, p: Proc, v: Part)
    requires p.pc.Start? && v.holder.None?
    ensures EndsAs(RunAlone(me, r, p, v),
                   if NamesAgree(r) then Whole(v.clone, v.remote, r, me) else Result(v.clone, v.remote, false))
  {
    AloneStep(me, r, p, v);
    if NamesAgree(r) {
      AloneStep(me, r, p.(pc := Lock), v);
      PullAlone(me, r, p.(pc := PullFirst), v.(holder := Some(me)));
    } else {
      var q := Finish(p, Error);
      AloneStep(me, r, q, v);
    }
  }
}
