/** Which answer a request gets, over whole runs: every answer has its reason in the store or in a call that failed. */
module EtcdAnswers {
  import opened Requests
  import opened Keys
  import opened EtcdMachine
  import opened EtcdInvariant
  import opened EtcdHistory

  predicate Failure(o: Outcome) {
    o.Failed? || o.ToolRejected?
  }

  // ------------------------------------------------------------- failed calls

  /** One of the request's own calls before its cleanup has failed. */
  ghost predicate Faulted(reqs: seq<Request>, s: Sys, trace: seq<Action>, i: nat)
    requires i < |reqs| == |s.procs| && Legal(reqs, s, trace)
  {
    trace != [] &&
    var init, a := trace[..|trace| - 1], trace[|trace| - 1];
    || Faulted(reqs, s, init, i)
    || (a.Act? && a.i == i && !a.c.Succeed? && !Finished(Exec(reqs, s, init).procs[i].pc))
  }

  /** What a request's control point and answer tell of its failed calls. */
  predicate Tells(p: Proc, faulted: bool) {
    if Finished(p.pc) then Failure(p.outcome) <==> faulted
    else faulted <==> p.pc.LockFailed?
  }

  lemma TellsStep(me: nat, r: Request, p: Proc, e: Env, c: Choice, faulted: bool)
    requires !p.pc.Done? && CanServe(e, NextCall(r, p), c) && Tells(p, faulted)
    ensures Tells(ProcStep(r, e, me, p, c), faulted || (!c.Succeed? && !Finished(p.pc)))
  {
    var reply := Serve(e, me, NextCall(r, p), c).1;
    assert reply.Error? <==> !c.Succeed?;
  }

  /**
   * A request that is cleaning up or done has a failure for its answer exactly when one of its own
   * calls before failed; no failure of a call is swallowed and none is made up.
   */
  lemma {:induction false} FailuresShow(reqs: seq<Request>, names: set<string>, s: Sys, trace: seq<Action>, i: nat)
    requires Initial(reqs, names, s) && Legal(reqs, s, trace) && i < |reqs|
    ensures Tells(Exec(reqs, s, trace).procs[i], Faulted(reqs, s, trace, i))
  {
    if trace != [] {
      var init, a := trace[..|trace| - 1], trace[|trace| - 1];
      FailuresShow(reqs, names, s, init, i);
      var t := Exec(reqs, s, init);
      if a.Act? && a.i == i {
        TellsStep(i, reqs[i], t.procs[i], t.env, a.c, Faulted(reqs, s, init, i));
      }
    }
  }

  /**
   * Any call that leaves the process can fail, in any state, before or after it took effect. A failed call
   * leaves the environment as it was or as success would, and stops a request that is not cleaning up.
   */
  lemma AnyCallCanFail(reqs: seq<Request>, s: Sys, i: nat, c: Choice)
    requires i < |reqs| == |s.procs| && !s.procs[i].pc.Done? && !c.Succeed?
    requires var call := NextCall(reqs[i], s.procs[i]);
             !call.Internal? && (call.RunRelease? ==> !call.release.CancelContext?)
    requires s.procs[i].pc.Lock? && c.FailAfter? ==> LockFree(s.env, InstanceKey(reqs[i].name))
    ensures Enabled(reqs, s, Act(i, c))
    ensures var p, q := s.procs[i], Next(reqs, s, Act(i, c)).procs[i];
            if Finished(p.pc) then Finished(q.pc) && q.outcome == p.outcome
            else q.pc.LockFailed? || (Finished(q.pc) && Failure(q.outcome))
    ensures var env := Next(reqs, s, Act(i, c)).env;
            if c.FailBefore? then env == s.env
            else Enabled(reqs, s, Act(i, Succeed)) && env == Next(reqs, s, Act(i, Succeed)).env
  {
  }

  // -------------------------------------------------------------- the reasons

  /** The reason of each answer, in what the request's last call before its cleanup found or met. */
  predicate Reason(me: nat, r: Request, call: Call, v: View, c: Choice, o: Outcome) {
    match o
    case Ok => c.Succeed? && v.holder == Some(me)
    case NameMismatch => !NamesAgree(r)
    case NoKey => NamesAgree(r) && r.kind.Delete? && v.entry.None? && v.holder != Some(me)
    case InstanceNoExist => r.oldInstance.Some? && v.entry.None? && v.holder == Some(me)
    case OldDiffers =>
      && r.oldInstance.Some? && v.entry.Some? && v.holder == Some(me)
      && v.entry.value.yaml != r.oldInstance.value.yaml
    case UnexpectedCount => r.kind.Delete? && r.oldInstance.None? && v.entry.None? && v.holder == Some(me)
    case ToolRejected =>
      && (r.server.kubectl || (r.kind.Apply? && r.server.kustomize))
      && !c.Succeed? && call == RunTool(r.server.id, r.Dir())
    case Failed => !call.RunTool?
  }

  lemma ReasonSeen(me: nat, r: Request, p: Proc, v: View, c: Choice, reply: Reply)
    requires ProcInv(me, r, p, v) && Possible(r, p, v, c) && Fits(r, p, v, c, reply)
    requires !Finished(p.pc) && Finished(NextProc(r, p, v, c, reply).pc)
    requires !PastLock(p.pc) ==> v.holder != Some(me)
    ensures Reason(me, r, NextCall(r, p), v, c, NextProc(r, p, v, c, reply).outcome)
  {
  }

  /** An action is the request's last call before its cleanup, and the reason of an answer. */
  predicate Answers(reqs: seq<Request>, s: Sys, a: Action, i: nat, o: Outcome)
    requires i < |reqs| == |s.procs|
  {
    && a.Act? && a.i == i && !Finished(s.procs[i].pc)
    && Reason(i, reqs[i], NextCall(reqs[i], s.procs[i]), ViewOf(s.env, reqs[i]), a.c, o)
  }

  ghost predicate AnsweredAt(reqs: seq<Request>, s: Sys, trace: seq<Action>, i: nat, k: nat, o: Outcome)
    requires i < |reqs| == |s.procs|
  {
    k < |trace| && Legal(reqs, s, trace[..k]) && Answers(reqs, Exec(reqs, s, trace[..k]), trace[k], i, o)
  }

  lemma ReasonOfStep(reqs: seq<Request>, names: set<string>, s: Sys, a: Action, i: nat)
    requires Inv(reqs, names, s) && Enabled(reqs, s, a) && i < |reqs| && !Finished(s.procs[i].pc)
    requires Finished(Next(reqs, s, a).procs[i].pc)
    ensures Answers(reqs, s, a, i, Next(reqs, s, a).procs[i].outcome)
  {
    assert ProcInv(i, reqs[i], s.procs[i], ViewOf(s.env, reqs[i]));
    if a.Act? && a.i == i {
      var v, reply := StepSeen(i, reqs[i], s.procs[i], s.env, a.c);
      ReasonSeen(i, reqs[i], s.procs[i], v, a.c, reply);
    }
  }

  lemma AnsweredBefore(reqs: seq<Request>, s: Sys, trace: seq<Action>, i: nat, k: nat, o: Outcome)
    requires i < |reqs| == |s.procs| && trace != [] && AnsweredAt(reqs, s, trace[..|trace| - 1], i, k, o)
    ensures AnsweredAt(reqs, s, trace, i, k, o)
  {
    assert trace[..|trace| - 1][..k] == trace[..k];
  }

  lemma AnswerStays(reqs: seq<Request>, s: Sys, a: Action, i: nat)
    requires i < |reqs| == |s.procs| && Enabled(reqs, s, a)
    requires Finished(s.procs[i].pc)
    ensures Next(reqs, s, a).procs[i].outcome == s.procs[i].outcome
  {
  }

  /**
   * Every answer of a run goes back to one call of its request, and at that moment the store, the mutex
   * and the call gave just that reason for it. A refusal before the mutex is taken differs from one
   * behind it, so with all calls working the reasons exclude each other.
   */
  lemma {:induction false} AnswerHasReason(reqs: seq<Request>, names: set<string>, s: Sys, trace: seq<Action>, i: nat)
    returns (k: nat)
    requires CleanRequests(reqs, names) && Initial(reqs, names, s) && Legal(reqs, s, trace) && i < |reqs|
    ensures var p := Exec(reqs, s, trace).procs[i];
            Finished(p.pc) ==> AnsweredAt(reqs, s, trace, i, k, p.outcome)
  {
    k := 0;
    if trace != [] {
      var init, a := trace[..|trace| - 1], trace[|trace| - 1];
      var t := Exec(reqs, s, init);
      if Finished(t.procs[i].pc) {
        k := AnswerHasReason(reqs, names, s, init, i);
        AnswerStays(reqs, t, a, i);
        AnsweredBefore(reqs, s, trace, i, k, t.procs[i].outcome);
      } else if Finished(Next(reqs, t, a).procs[i].pc) {
        k := |trace| - 1;
        InvInitially(reqs, names, s);
        Reachable(reqs, names, s, init);
        ReasonOfStep(reqs, names, t, a, i);
      }
    }
  }
}
