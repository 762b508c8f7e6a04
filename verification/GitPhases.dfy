/**
 * The interleaved machine's commands of an Init in a row are the adapter's Init, as GitAdapter's
 * contracts state it; GitChain does the same for the commands of a Commit.
 */
module GitPhases {
  import opened Paths
  import opened Requests
  import opened GitRepo
  import opened Trimming
  import opened GitReplicas
  import A = GitAdapter

  /** From the pull to the last write. */
  predicate Initialising(pc: Pc) {
    pc.PullFirst? || pc.Stat? || pc.CheckTracked? || pc.CheckUntracked? || pc.Compare? || pc.Write?
  }

  /** The choice that a pattern of failures makes; of the writes the first `writes` work. */
  function ChoiceFor(pc: Pc, f: A.InitFaults, writes: nat): Choice {
    match pc
    case PullFirst => if f.pull then Fail else Succeed
    case CheckTracked => if f.diff then Fail else Succeed
    case CheckUntracked => if f.others then Fail else Succeed
    case Compare => if f.read then Fail else Succeed
    case Write(j) => if j < writes then Succeed else Fail
    case _ => Succeed
  }

  function StepsLeft(r: Request, pc: Pc): nat {
    match pc
    case PullFirst => 7 + |r.files|
    case Stat => 6 + |r.files|
    case CheckTracked => 5 + |r.files|
    case CheckUntracked => 4 + |r.files|
    case Compare => 3 + |r.files|
    case Write(j) => if j <= |r.files| then 2 + |r.files| - j else 1
    case _ => 0
  }

  /** One request's commands of its Init, with nobody in between. */
  function InitPhase(me: nat, r: Request, p: Proc, v: Part, f: A.InitFaults, writes: nat): (Proc, Part)
    decreases StepsLeft(r, p.pc)
  {
    if !Initialising(p.pc) then (p, v)
    else
      var (q, w) := Local(me, r, r.Dir(), p, v, ChoiceFor(p.pc, f, writes));
      InitPhase(me, r, q, w, f, writes)
  }

  lemma PhaseStep(me: nat, r: Request, p: Proc, v: Part, f: A.InitFaults, writes: nat)
    requires Initialising(p.pc)
    ensures var (q, w) := Local(me, r, r.Dir(), p, v, ChoiceFor(p.pc, f, writes));
            InitPhase(me, r, p, v, f, writes) == InitPhase(me, r, q, w, f, writes)
  {
  }

  /** A phase ends at the tool step, or with an error. */
  predicate Ends(p: Proc, run: (Proc, Part), ok: bool, v: Part) {
    run.0 == (if ok then p.(pc := Tool) else Finish(p, Error)) && run.1 == v
  }

  function WithWrites(v: Part, before: Tree, r: Request, k: nat): Part
    requires k <= |r.files| + 1
  {
    v.(clone := v.clone.(worktree := A.WrittenSoFar(before, r.Dir(), r, k)))
  }

  lemma OneWrite(me: nat, r: Request, p: Proc, v: Part, before: Tree, c: Choice)
    requires p.pc.Write? && p.pc.k <= |r.files| + 1 && v == WithWrites(v, before, r, p.pc.k)
    ensures Local(me, r, r.Dir(), p, v, c)
         == if !c.Succeed? then (Finish(p, Error), v)
            else if p.pc.k > |r.files| then (p.(pc := Tool), v)
            else (p.(pc := Write(p.pc.k + 1)), WithWrites(v, before, r, p.pc.k + 1))
  {
    if p.pc.k <= |r.files| {
      WriteStep(before, r, p.pc.k);
    }
  }

  /** The writes from the present one on, of which the first `writes` work. */
  lemma {:induction false} WritePhase(me: nat, r: Request, p: Proc, v: Part, before: Tree, f: A.InitFaults, writes: nat)
    requires p.pc.Write? && p.pc.k <= |r.files| + 1 && v == WithWrites(v, before, r, p.pc.k)
    requires p.pc.k <= writes <= |r.files| + 2 && writes != |r.files| + 1
    ensures Ends(p, InitPhase(me, r, p, v, f, writes), writes > |r.files|,
                 WithWrites(v, before, r, if writes <= |r.files| then writes else |r.files| + 1))
    decreases writes - p.pc.k
  {
    if p.pc.k < writes && p.pc.k <= |r.files| {
      var q, w := p.(pc := Write(p.pc.k + 1)), WithWrites(v, before, r, p.pc.k + 1);
      NextWrite(me, r, p, v, before, f, writes);
      WritePhase(me, r, q, w, before, f, writes);
      SameEnd(p, q, v, w, before, r, InitPhase(me, r, p, v, f, writes), writes);
    } else {
      LastWrite(me, r, p, v, before, f, writes);
    }
  }

  /** What a phase ends with does not depend on how far its writes had come. */
  lemma SameEnd(p: Proc, q: Proc, v: Part, w: Part, before: Tree, r: Request, run: (Proc, Part), writes: nat)
    requires q == p.(pc := q.pc) && w == v.(clone := v.clone.(worktree := w.clone.worktree))
    ensures var k := if writes <= |r.files| then writes else |r.files| + 1;
            Ends(p, run, writes > |r.files|, WithWrites(v, before, r, k))
            <==> Ends(q, run, writes > |r.files|, WithWrites(w, before, r, k))
  {
  }

  lemma NextWrite(me: nat, r: Request, p: Proc, v: Part, before: Tree, f: A.InitFaults, writes: nat)
    requires p.pc.Write? && p.pc.k <= |r.files| && p.pc.k < writes && v == WithWrites(v, before, r, p.pc.k)
    ensures var w := WithWrites(v, before, r, p.pc.k + 1);
            && InitPhase(me, r, p, v, f, writes) == InitPhase(me, r, p.(pc := Write(p.pc.k + 1)), w, f, writes)
            && w == WithWrites(w, before, r, p.pc.k + 1)
  {
    PhaseStep(me, r, p, v, f, writes);
    OneWrite(me, r, p, v, before, Succeed);
  }

  /** The write that fails, or the step behind the last one. */
  lemma LastWrite(me: nat, r: Request, p: Proc, v: Part, before: Tree, f: A.InitFaults, writes: nat)
    requires p.pc.Write? && p.pc.k <= |r.files| + 1 && v == WithWrites(v, before, r, p.pc.k)
    requires if p.pc.k <= |r.files| then writes == p.pc.k else writes == |r.files| + 2
    ensures Ends(p, InitPhase(me, r, p, v, f, writes), writes > |r.files|, v)
  {
    PhaseStep(me, r, p, v, f, writes);
    OneWrite(me, r, p, v, before, ChoiceFor(p.pc, f, writes));
  }

  lemma WriteStep(before: Tree, r: Request, k: nat)
    requires k <= |r.files|
    ensures var t := A.WrittenSoFar(before, r.Dir(), r, k);
            A.WrittenSoFar(before, r.Dir(), r, k + 1)
            == if k == 0 then t[ManifestPath(r.Dir()) := r.yaml]
               else t[FilePath(r.Dir(), r.files[k - 1].name) := r.files[k - 1].contents]
  {
  }

  /** The checks between pull and writes. */
  lemma ChecksPhase(me: nat, r: Request, p: Proc, v: Part, f: A.InitFaults, writes: nat)
    requires p.pc.CheckTracked?
    ensures var file := At(v.clone.worktree, ManifestPath(r.Dir()));
            var passes := !f.diff && !f.others && CleanDir(v.clone, r.Dir())
                          && (r.oldInstance.Some? ==> !f.read) && NamesCurrent(r, file);
            InitPhase(me, r, p, v, f, writes)
            == if passes then InitPhase(me, r, p.(pc := if r.kind.Delete? then Tool else Write(0)), v, f, writes)
               else (Finish(p, Error), v)
  {
    var (p1, v1) := Local(me, r, r.Dir(), p, v, ChoiceFor(p.pc, f, writes));
    assert InitPhase(me, r, p, v, f, writes) == InitPhase(me, r, p1, v1, f, writes);
    MatchesExactly(r, At(v.clone.worktree, ManifestPath(r.Dir())));
    if p1.pc.CheckUntracked? {
      var (p2, v2) := Local(me, r, r.Dir(), p1, v1, ChoiceFor(p1.pc, f, writes));
      assert InitPhase(me, r, p1, v1, f, writes) == InitPhase(me, r, p2, v2, f, writes);
      if p2.pc.Compare? {
        var (p3, v3) := Local(me, r, r.Dir(), p2, v2, ChoiceFor(p2.pc, f, writes));
        assert InitPhase(me, r, p2, v2, f, writes) == InitPhase(me, r, p3, v3, f, writes);
      }
    }
  }

  /** Whatever an updater's Init may report and leave, the machine's commands under the same failures report and leave. */
  lemma UpdaterInitPhase(me: nat, r: Request, p: Proc, v: Part, err: Option<A.Error>, f: A.InitFaults, k: nat, after: Clone)
    requires r.kind.Apply? && p.pc.PullFirst? && err != Some(A.LockFailed)
    requires err == Some(A.PullFailed) <==> f.pull || Pull(v.clone, v.remote).None?
    requires if err == Some(A.PullFailed) then after == v.clone
             else A.InitResult(Pull(v.clone, v.remote).value, after, r, r.Dir(), err, f, k)
    ensures Ends(p, InitPhase(me, r, p, v, f, if err.None? then k + 1 else k), err.None?, v.(clone := after))
  {
    var n := if err.None? then k + 1 else k;
    var (q, w) := Local(me, r, r.Dir(), p, v, ChoiceFor(p.pc, f, n));
    assert InitPhase(me, r, p, v, f, n) == InitPhase(me, r, q, w, f, n);
    if err != Some(A.PullFailed) {
      var pulled := Pull(v.clone, v.remote).value;
      assert q == p.(pc := CheckTracked) && w == v.(clone := pulled);
      ChecksPhase(me, r, q, w, f, n);
      if err.None? || err.value.WriteFailed? {
        WritePhase(me, r, q.(pc := Write(0)), w, pulled.worktree, f, n);
      }
    }
  }

  /** The same for a deleter's Init. */
  lemma DeleterInitPhase(me: nat, r: Request, p: Proc, v: Part, f: A.InitFaults)
    requires r.kind.Delete? && p.pc.PullFirst?
    ensures var pulled := Pull(v.clone, v.remote);
            if f.pull || pulled.None? then InitPhase(me, r, p, v, f, 0) == (Finish(p, Error), v)
            else
              var c := pulled.value;
              var manifest := At(c.worktree, ManifestPath(r.Dir()));
              Ends(p, InitPhase(me, r, p, v, f, 0),
                   manifest.Some? && !f.diff && !f.others && CleanDir(c, r.Dir())
                   && (r.oldInstance.Some? ==> !f.read) && NamesCurrent(r, manifest),
                   v.(clone := c))
  {
    var (p1, v1) := Local(me, r, r.Dir(), p, v, ChoiceFor(p.pc, f, 0));
    assert InitPhase(me, r, p, v, f, 0) == InitPhase(me, r, p1, v1, f, 0);
    if p1.pc.Stat? {
      var (p2, v2) := Local(me, r, r.Dir(), p1, v1, Succeed);
      assert InitPhase(me, r, p1, v1, f, 0) == InitPhase(me, r, p2, v2, f, 0);
      if p2.pc.CheckTracked? {
        ChecksPhase(me, r, p2, v2, f, 0);
      }
    }
  }
}
