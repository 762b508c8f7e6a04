/** The etcd machine cannot deadlock, always ends, and leaves no mutex behind. */
module EtcdProgress {
  import opened Requests
  import opened Keys
  import opened EtcdMachine
  import opened EtcdInvariant
  import opened EtcdHistory

  // ------------------------------------------------------------------ deadlock

  /** A request holds at most one mutex. */
  lemma AtMostOneLock(reqs: seq<Request>, names: set<string>, s: Sys, l: string, m: string)
    requires Inv(reqs, names, s) && l in s.env.locks && m in s.env.locks && s.env.locks[l] == s.env.locks[m]
    ensures l == m
  {
  }

  lemma SucceedEnabled(reqs: seq<Request>, s: Sys, i: nat)
    requires |s.procs| == |reqs| && i < |reqs| && !s.procs[i].pc.Done?
    requires s.procs[i].pc.Lock? ==> LockFree(s.env, InstanceKey(reqs[i].name))
    ensures Enabled(reqs, s, Act(i, Succeed))
  {
  }

  /** While a request is unfinished, some request can make its next call succeed or an orphaned lease can run out. */
  lemma NoDeadlock(reqs: seq<Request>, names: set<string>, s: Sys, i: nat) returns (a: Action)
    requires Inv(reqs, names, s) && i < |reqs| && !s.procs[i].pc.Done?
    ensures Enabled(reqs, s, a)
    ensures a.Act? ==> a.c == Succeed
  {
    var l := LockName(InstanceKey(reqs[i].name));
    if s.procs[i].pc.Lock? && l in s.env.locks {
      var j := s.env.locks[l];
      if s.procs[j].pc.Done? {
        a := Expire(l);
      } else {
        a := Act(j, Succeed);
        SucceedEnabled(reqs, s, j);
      }
    } else {
      a := Act(i, Succeed);
      SucceedEnabled(reqs, s, i);
    }
  }

  /** A run that cannot go on has answered every request and holds no mutex. */
  lemma StuckIsDone(reqs: seq<Request>, names: set<string>, s: Sys)
    requires Inv(reqs, names, s) && forall a :: !Enabled(reqs, s, a)
    ensures forall i :: 0 <= i < |reqs| ==> s.procs[i].pc.Done?
    ensures s.env.locks == map[]
  {
    forall i | 0 <= i < |reqs| ensures s.procs[i].pc.Done? {
      if !s.procs[i].pc.Done? {
        var a := NoDeadlock(reqs, names, s, i);
        assert false;
      }
    }
    forall l ensures l !in s.env.locks {
      assert !Enabled(reqs, s, Expire(l));
    }
  }

  // --------------------------------------------------------------- termination

  /** An upper bound on the steps a request has left. */
  function Remaining(r: Request, p: Proc): int {
    var n := |r.files|;
    match p.pc
    case Start => 17 + 2 * n
    case Client => 16 + 2 * n
    case Exists => 15 + 2 * n
    case Lock => 14 + 2 * n
    case LockFailed => 6
    case CheckExists => 13 + 2 * n
    case CheckValue => 12 + 2 * n
    case Load => 11 + 2 * n
    case WriteYaml => 10 + 2 * n
    case WriteFile(k) => 9 + 2 * n - k
    case Tool => 8 + n
    case Commit => 7 + n
    case PutFile(k) => 6 + n - k
    case Cleaning => 1 + |p.cleanups|
    case Done => 0
  }

  predicate InBounds(r: Request, p: Proc) {
    && CleanupsMatch(p)
    && (p.pc.WriteFile? ==> p.pc.k <= |r.files|)
    && (p.pc.PutFile? ==> p.pc.k <= |r.files|)
  }

  lemma RemainingFalls(r: Request, p: Proc, v: View, c: Choice, reply: Reply)
    requires InBounds(r, p) && !p.pc.Done?
    ensures 0 <= Remaining(r, NextProc(r, p, v, c, reply)) < Remaining(r, p)
  {
    if p.pc.CheckExists? || p.pc.CheckValue? || p.pc.Load? || p.pc.WriteYaml? {
      RemainingFallsChecking(r, p, v, c, reply);
    } else if Critical(p.pc) {
      RemainingFallsInside(r, p, v, c, reply);
    } else {
      RemainingFallsOutside(r, p, v, c, reply);
    }
  }

  lemma RemainingFallsChecking(r: Request, p: Proc, v: View, c: Choice, reply: Reply)
    requires p.pc.CheckExists? || p.pc.CheckValue? || p.pc.Load? || p.pc.WriteYaml?
    requires InBounds(r, p)
    ensures 0 <= Remaining(r, NextProc(r, p, v, c, reply)) < Remaining(r, p)
  {
  }

  lemma RemainingFallsInside(r: Request, p: Proc, v: View, c: Choice, reply: Reply)
    requires InBounds(r, p) && (p.pc.WriteFile? || p.pc.Tool? || p.pc.Commit? || p.pc.PutFile?)
    ensures 0 <= Remaining(r, NextProc(r, p, v, c, reply)) < Remaining(r, p)
  {
  }

  lemma RemainingFallsOutside(r: Request, p: Proc, v: View, c: Choice, reply: Reply)
    requires InBounds(r, p) && !Critical(p.pc) && !p.pc.Done?
    ensures 0 <= Remaining(r, NextProc(r, p, v, c, reply)) < Remaining(r, p)
  {
  }

  lemma RemainingNat(me: nat, r: Request, p: Proc, v: View)
    requires ProcInv(me, r, p, v)
    ensures 0 <= Remaining(r, p)
  {
  }

  function TotalRemaining(reqs: seq<Request>, procs: seq<Proc>): int
    requires |procs| == |reqs|
  {
    if reqs == [] then 0
    else TotalRemaining(reqs[1..], procs[1..]) + Remaining(reqs[0], procs[0])
  }

  lemma {:induction false} TotalUpdate(reqs: seq<Request>, procs: seq<Proc>, i: nat, q: Proc)
    requires i < |reqs| == |procs|
    ensures TotalRemaining(reqs, procs[i := q])
         == TotalRemaining(reqs, procs) - Remaining(reqs[i], procs[i]) + Remaining(reqs[i], q)
  {
    if i == 0 {
      assert procs[0 := q][1..] == procs[1..];
    } else {
      TotalUpdate(reqs[1..], procs[1..], i - 1, q);
      assert procs[i := q][1..] == procs[1..][i - 1 := q];
    }
  }

  lemma {:induction false} TotalNat(reqs: seq<Request>, procs: seq<Proc>)
    requires |reqs| == |procs| && forall i :: 0 <= i < |reqs| ==> 0 <= Remaining(reqs[i], procs[i])
    ensures 0 <= TotalRemaining(reqs, procs)
  {
    if reqs != [] {
      forall i | 0 <= i < |reqs| - 1 ensures 0 <= Remaining(reqs[1..][i], procs[1..][i]) {
        assert reqs[1..][i] == reqs[i + 1] && procs[1..][i] == procs[i + 1];
      }
      TotalNat(reqs[1..], procs[1..]);
    }
  }

  /** Remaining steps of all requests, counted twice, and the mutexes held. */
  function Measure(reqs: seq<Request>, s: Sys): int
    requires |s.procs| == |reqs|
  {
    2 * TotalRemaining(reqs, s.procs) + |s.env.locks|
  }

  lemma LocksGrowByOne(me: nat, r: Request, p: Proc, e: Env, c: Choice)
    ensures |Serve(e, me, NextCall(r, p), c).0.locks| <= |e.locks| + 1
  {
    var locks := Serve(e, me, NextCall(r, p), c).0.locks;
    var l := LockName(InstanceKey(r.name));
    LockStepServed(me, r, p, e, c);
    assert locks.Keys <= e.locks.Keys + {l};
    SubsetCard(locks.Keys, e.locks.Keys + {l});
    assert |locks| == |locks.Keys| && |e.locks| == |e.locks.Keys|;
  }

  lemma {:induction false} SubsetCard(a: set<string>, b: set<string>)
    requires a <= b
    ensures |a| <= |b|
  {
    if a != {} {
      var x :| x in a;
      SubsetCard(a - {x}, b - {x});
    }
  }

  lemma MeasureFalls(reqs: seq<Request>, names: set<string>, s: Sys, a: Action)
    requires Inv(reqs, names, s) && Enabled(reqs, s, a)
    ensures Measure(reqs, Next(reqs, s, a)) < Measure(reqs, s)
  {
    match a
    case Act(i, c) =>
      var q := ProcStep(reqs[i], s.env, i, s.procs[i], c);
      assert ProcInv(i, reqs[i], s.procs[i], ViewOf(s.env, reqs[i]));
      var v, reply := StepSeen(i, reqs[i], s.procs[i], s.env, c);
      RemainingFalls(reqs[i], s.procs[i], v, c, reply);
      TotalUpdate(reqs, s.procs, i, q);
      LocksGrowByOne(i, reqs[i], s.procs[i], s.env, c);
    case Expire(l) =>
      var locks := s.env.locks;
      assert |locks - {l}| == |locks| - 1 by {
        assert (locks - {l}).Keys == locks.Keys - {l};
      }
  }

  lemma MeasureNat(reqs: seq<Request>, names: set<string>, s: Sys)
    requires Inv(reqs, names, s)
    ensures 0 <= Measure(reqs, s)
  {
    forall i | 0 <= i < |reqs| ensures 0 <= Remaining(reqs[i], s.procs[i]) {
      RemainingNat(i, reqs[i], s.procs[i], ViewOf(s.env, reqs[i]));
    }
    TotalNat(reqs, s.procs);
  }

  /** No run is longer than the measure of the state it starts from. */
  lemma {:induction false} RunsAreBounded(reqs: seq<Request>, names: set<string>, s: Sys, trace: seq<Action>)
    requires CleanRequests(reqs, names) && Inv(reqs, names, s) && Legal(reqs, s, trace)
    ensures 0 <= Measure(reqs, Exec(reqs, s, trace)) <= Measure(reqs, s) - |trace|
  {
    Reachable(reqs, names, s, trace);
    MeasureNat(reqs, names, Exec(reqs, s, trace));
    if trace != [] {
      var init := trace[..|trace| - 1];
      Reachable(reqs, names, s, init);
      RunsAreBounded(reqs, names, s, init);
      MeasureFalls(reqs, names, Exec(reqs, s, init), trace[|trace| - 1]);
    }
  }

  // ------------------------------------------------------------------- release

  predicate HoldsNothing(s: Sys, i: nat) {
    forall l :: l in s.env.locks ==> s.env.locks[l] != i
  }

  /**
   * In every reachable state the releases still to run are the first few of these, so that they run from the
   * unlock back to the client; all are registered in the critical section, and none is left at the end.
   */
  lemma ReleasesInOrder(reqs: seq<Request>, names: set<string>, s: Sys, trace: seq<Action>, i: nat)
    requires CleanRequests(reqs, names) && Initial(reqs, names, s) && Legal(reqs, s, trace) && i < |reqs|
    ensures var p, all := Exec(reqs, s, trace).procs[i], [CloseClient, CancelContext, CloseSession, Unlock];
            p.cleanups <= all && (Critical(p.pc) ==> p.cleanups == all) && (p.pc.Done? ==> p.cleanups == [])
  {
    InvInitially(reqs, names, s);
    Reachable(reqs, names, s, trace);
    var t := Exec(reqs, s, trace);
    assert ProcInv(i, reqs[i], t.procs[i], ViewOf(t.env, reqs[i]));
    CleanupsInOrder(t.procs[i]);
  }

  lemma CleanupsInOrder(p: Proc)
    requires CleanupsMatch(p)
    ensures var all := [CloseClient, CancelContext, CloseSession, Unlock];
            p.cleanups <= all && (Critical(p.pc) ==> p.cleanups == all) && (p.pc.Done? ==> p.cleanups == [])
  {
  }

  /** The next call of a request unlocks its mutex or closes its session. */
  predicate Releasing(p: Proc) {
    p.pc.LockFailed? || (p.pc.Cleaning? && p.cleanups != [] && p.cleanups[|p.cleanups| - 1] in {Unlock, CloseSession})
  }

  lemma ReleaseFrees(reqs: seq<Request>, names: set<string>, s: Sys, i: nat, c: Choice)
    requires Inv(reqs, names, s) && Enabled(reqs, s, Act(i, c))
    requires Releasing(s.procs[i]) && !c.FailBefore?
    ensures HoldsNothing(Next(reqs, s, Act(i, c)), i)
  {
    LockStepServed(i, reqs[i], s.procs[i], s.env, c);
  }

  /** A request that is cleaning up or done without a mutex takes none any more. */
  predicate Free(s: Sys, i: nat)
    requires i < |s.procs|
  {
    Finished(s.procs[i].pc) && HoldsNothing(s, i)
  }

  lemma FreeStays(reqs: seq<Request>, s: Sys, a: Action, i: nat)
    requires i < |reqs| == |s.procs| && Enabled(reqs, s, a) && Free(s, i)
    ensures Free(Next(reqs, s, a), i)
  {
    if a.Act? {
      LockStepServed(a.i, reqs[a.i], s.procs[a.i], s.env, a.c);
      FinishedStays(a.i, reqs[a.i], s.procs[a.i], s.env, a.c);
    }
  }

  lemma FinishedStays(me: nat, r: Request, p: Proc, e: Env, c: Choice)
    ensures Finished(p.pc) || p.pc.LockFailed? ==> Finished(ProcStep(r, e, me, p, c).pc)
  {
  }

  lemma {:induction false} FreeForGood(reqs: seq<Request>, s: Sys, before: seq<Action>, after: seq<Action>, i: nat)
    requires i < |reqs| == |s.procs| && Legal(reqs, s, before) && Legal(reqs, s, before + after)
    requires Free(Exec(reqs, s, before), i)
    ensures Free(Exec(reqs, s, before + after), i)
  {
    if after == [] {
      assert before + after == before;
    } else {
      var n := |after| - 1;
      assert (before + after)[..|before + after| - 1] == before + after[..n];
      FreeForGood(reqs, s, before, after[..n], i);
      FreeStays(reqs, Exec(reqs, s, before + after[..n]), after[n], i);
    }
  }

  /**
   * One effective unlock or session close, even with the other one failed, frees the request's
   * mutex for the rest of the run without waiting for any lease.
   */
  lemma OneReleaseSuffices(reqs: seq<Request>, names: set<string>, s: Sys, before: seq<Action>, i: nat, c: Choice, after: seq<Action>)
    requires CleanRequests(reqs, names) && Initial(reqs, names, s) && i < |reqs|
    requires Legal(reqs, s, before + [Act(i, c)] + after)
    ensures Legal(reqs, s, before)
    ensures Releasing(Exec(reqs, s, before).procs[i]) && !c.FailBefore? ==>
              HoldsNothing(Exec(reqs, s, before + [Act(i, c)] + after), i)
  {
    var a := Act(i, c);
    PrefixLegal(reqs, s, before + [a] + after, |before|);
    assert (before + [a] + after)[..|before|] == before;
    assert (before + [a] + after)[..|before| + 1] == before + [a];
    var t := Exec(reqs, s, before);
    if Releasing(t.procs[i]) && !c.FailBefore? {
      InvInitially(reqs, names, s);
      Reachable(reqs, names, s, before);
      ReleaseFrees(reqs, names, t, i, c);
      FinishedStays(i, reqs[i], t.procs[i], t.env, c);
      FreeForGood(reqs, s, before + [a], after, i);
    }
  }

  // -------------------------------------------------------- undisturbed answers

  /** The answer that a request gets of a store that nobody else touches meanwhile, when every call works. */
  function AnswerAlone(r: Request, entry: Option<Entry>): Outcome {
    if r.oldInstance.Some? && r.oldInstance.value.name != r.name then NameMismatch
    else if r.kind.Delete? && entry.None? then NoKey
    else if r.oldInstance.Some? && entry.None? then InstanceNoExist
    else if r.oldInstance.Some? && entry.value.yaml != r.oldInstance.value.yaml then OldDiffers
    else Ok
  }

  /** A request that nothing has stopped, whose mutex is free or its own, is on its way to an answer. */
  predicate Heading(r: Request, p: Proc, v: View, o: Outcome) {
    && (Finished(p.pc) ==> p.outcome == o)
    && !p.pc.LockFailed?
    && (!Finished(p.pc) && !Critical(p.pc) ==> v.holder.None?)
    && (!Finished(p.pc) ==> o == if p.pc.PutFile? then Ok else AnswerAlone(r, v.entry))
    && (r.kind.Delete? && (p.pc.Lock? || Critical(p.pc)) ==> v.entry.Some?)
  }

  lemma StaysHeading(me: nat, r: Request, p: Proc, v: View, reply: Reply, o: Outcome)
    requires ProcInv(me, r, p, v) && Heading(r, p, v, o) && !p.pc.Done? && Fits(r, p, v, Succeed, reply)
    ensures Possible(r, p, v, Succeed)
    ensures Heading(r, NextProc(r, p, v, Succeed, reply), ViewStep(me, r, p, v, Succeed), o)
  {
    if Critical(p.pc) {
      StaysHeadingInside(me, r, p, v, reply, o);
    }
  }

  lemma StaysHeadingInside(me: nat, r: Request, p: Proc, v: View, reply: Reply, o: Outcome)
    requires ProcInv(me, r, p, v) && Heading(r, p, v, o) && Critical(p.pc) && Fits(r, p, v, Succeed, reply)
    ensures Possible(r, p, v, Succeed)
    ensures Heading(r, NextProc(r, p, v, Succeed, reply), ViewStep(me, r, p, v, Succeed), o)
  {
  }

  lemma HeadingStep(reqs: seq<Request>, names: set<string>, s: Sys, i: nat, o: Outcome)
    requires CleanRequests(reqs, names) && Inv(reqs, names, s) && i < |reqs| && !s.procs[i].pc.Done?
    requires Heading(reqs[i], s.procs[i], ViewOf(s.env, reqs[i]), o)
    ensures Enabled(reqs, s, Act(i, Succeed))
    ensures var t := Next(reqs, s, Act(i, Succeed));
            && Heading(reqs[i], t.procs[i], ViewOf(t.env, reqs[i]), o)
            && 0 <= Remaining(reqs[i], t.procs[i]) < Remaining(reqs[i], s.procs[i])
  {
    assert ProcInv(i, reqs[i], s.procs[i], ViewOf(s.env, reqs[i]));
    var v, reply := StepSeen(i, reqs[i], s.procs[i], s.env, Succeed);
    StaysHeading(i, reqs[i], s.procs[i], v, reply, o);
    RemainingFalls(reqs[i], s.procs[i], v, Succeed, reply);
    OwnView(i, reqs[i], s.procs[i], s.env, Succeed);
  }

  lemma {:induction false} ExecCons(reqs: seq<Request>, s: Sys, a: Action, trace: seq<Action>)
    requires |s.procs| == |reqs| && Enabled(reqs, s, a) && Legal(reqs, Next(reqs, s, a), trace)
    ensures Legal(reqs, s, [a] + trace)
    ensures Exec(reqs, s, [a] + trace) == Exec(reqs, Next(reqs, s, a), trace)
  {
    var whole := [a] + trace;
    if trace == [] {
      assert whole[..0] == [] && whole[0] == a;
    } else {
      var n := |trace| - 1;
      ExecCons(reqs, s, a, trace[..n]);
      assert whole[..|whole| - 1] == [a] + trace[..n];
    }
  }

  /** Nobody but one request acts, and all its calls succeed. */
  predicate Alone(i: nat, trace: seq<Action>) {
    forall a :: a in trace ==> a == Act(i, Succeed)
  }

  lemma AloneCons(i: nat, trace: seq<Action>)
    requires Alone(i, trace)
    ensures Alone(i, [Act(i, Succeed)] + trace)
  {
  }

  /** Left alone with its mutex free, a request comes to the answer it is heading for. */
  lemma {:induction false} UndisturbedAnswers(reqs: seq<Request>, names: set<string>, s: Sys, i: nat, o: Outcome)
    returns (trace: seq<Action>)
    requires CleanRequests(reqs, names) && Inv(reqs, names, s) && i < |reqs|
    requires Heading(reqs[i], s.procs[i], ViewOf(s.env, reqs[i]), o)
    ensures Legal(reqs, s, trace) && Alone(i, trace)
    ensures Exec(reqs, s, trace).procs[i].pc.Done? && Exec(reqs, s, trace).procs[i].outcome == o
    decreases Remaining(reqs[i], s.procs[i]), 1
  {
    if s.procs[i].pc.Done? {
      trace := [];
    } else {
      trace := OneStepThenAnswers(reqs, names, s, i, o);
    }
  }

  lemma {:induction false} OneStepThenAnswers(reqs: seq<Request>, names: set<string>, s: Sys, i: nat, o: Outcome)
    returns (trace: seq<Action>)
    requires CleanRequests(reqs, names) && Inv(reqs, names, s) && i < |reqs| && !s.procs[i].pc.Done?
    requires Heading(reqs[i], s.procs[i], ViewOf(s.env, reqs[i]), o)
    ensures Legal(reqs, s, trace) && Alone(i, trace)
    ensures Exec(reqs, s, trace).procs[i].pc.Done? && Exec(reqs, s, trace).procs[i].outcome == o
    decreases Remaining(reqs[i], s.procs[i]), 0
  {
    var a := Act(i, Succeed);
    HeadingStep(reqs, names, s, i, o);
    InvStep(reqs, names, s, a);
    var rest := UndisturbedAnswers(reqs, names, Next(reqs, s, a), i, o);
    ExecCons(reqs, s, a, rest);
    AloneCons(i, rest);
    trace := [a] + rest;
  }

  /** From its start, in any reachable state where its mutex is free, it gets just the answer that the store calls for. */
  lemma AnsweredAlone(reqs: seq<Request>, names: set<string>, s: Sys, i: nat) returns (trace: seq<Action>)
    requires CleanRequests(reqs, names) && Inv(reqs, names, s) && i < |reqs|
    requires s.procs[i] == NewProc(reqs[i]) && LockFree(s.env, InstanceKey(reqs[i].name))
    ensures Legal(reqs, s, trace) && Alone(i, trace)
    ensures Exec(reqs, s, trace).procs[i].pc.Done?
    ensures Exec(reqs, s, trace).procs[i].outcome == AnswerAlone(reqs[i], EntryOf(s.env.kv, reqs[i].name))
  {
    trace := UndisturbedAnswers(reqs, names, s, i, AnswerAlone(reqs[i], EntryOf(s.env.kv, reqs[i].name)));
  }
}
