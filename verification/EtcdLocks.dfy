/**
 * The etcd machine over the real queues of its mutexes: acquiring is joining the queue and entering it
 * when no older key is left, and the range delete wipes the lock keys in its range. As long as every
 * range delete finds no other lock key in its range, the mutexes are exclusive and each run is a run of
 * the etcd machine, so all that is proved of those holds.
 */
module EtcdLocks {
  import opened Requests
  import opened Keys
  import opened EtcdMachine
  import opened EtcdInvariant
  import opened EtcdHistory
  import L = LockQueue

  /** The system without its table of held mutexes, and the queues in its place; a session is known by its request. */
  datatype QSys = QSys(sys: Sys, queue: L.Queue)

  /** A request joins the queue of its mutex, makes a call, or is done and its lease runs out. */
  datatype QAction = Join(i: nat, lease: string) | Take(i: nat, c: Choice) | RunOut(i: nat)

  predicate QEnabled(reqs: seq<Request>, q: QSys, a: QAction)
    requires |q.sys.procs| == |reqs|
  {
    match a
    case Join(i, _) => i < |reqs| && q.sys.procs[i].pc.Lock? && i !in q.queue.sessions
    case Take(i, c) =>
      && i < |reqs| && !q.sys.procs[i].pc.Done?
      && if q.sys.procs[i].pc.Lock? then c.FailBefore? || L.CanStep(q.queue, L.Enter(i))
         else CanServe(q.sys.env, NextCall(reqs[i], q.sys.procs[i]), c)
    case RunOut(i) => i < |reqs| && q.sys.procs[i].pc.Done? && i in q.queue.sessions
  }

  /** What a call does to the queues. */
  function QueueAfter(queue: L.Queue, me: nat, r: Request, p: Proc, c: Choice): L.Queue
    requires p.pc.Lock? && !c.FailBefore? ==> L.CanStep(queue, L.Enter(me))
  {
    if c.FailBefore? then queue
    else if p.pc.Lock? then L.After(queue, L.Enter(me))
    else if p.pc.Commit? && r.kind.Delete? then L.Wipe(queue, r.name)
    else if LetsGo(r, p) && me in queue.sessions then L.After(queue, L.Leave(me))
    else queue
  }

  function Bare(e: Env): Env {
    e.(locks := map[])
  }

  function QNext(reqs: seq<Request>, q: QSys, a: QAction): (t: QSys)
    requires |q.sys.procs| == |reqs| && QEnabled(reqs, q, a)
    ensures |t.sys.procs| == |reqs|
  {
    match a
    case Join(i, lease) => q.(queue := L.After(q.queue, L.Join(i, reqs[i].name, lease)))
    case Take(i, c) =>
      var r, p := reqs[i], q.sys.procs[i];
      var (env, reply) := Serve(q.sys.env, i, NextCall(r, p), c);
      QSys(Sys(Bare(env),
               q.sys.procs[i := Record(r, q.sys.env, p, c, Resume(r, p, reply))],
               q.sys.log + Logged(r, i, q.sys.env, p, c)),
           QueueAfter(q.queue, i, r, p, c))
    case RunOut(i) => q.(queue := L.After(q.queue, L.Leave(i)))
  }

  /** The hypothesis: a range delete finds no lock key in its range but that of its own session. */
  ghost predicate Quiet(reqs: seq<Request>, q: QSys, a: QAction)
    requires |q.sys.procs| == |reqs|
  {
    a.Take? && a.i < |reqs| && q.sys.procs[a.i].pc.Commit? && reqs[a.i].kind.Delete? && !a.c.FailBefore? ==>
      forall j :: j in q.queue.stored && j in q.queue.sessions && j != a.i ==> !L.Covers(reqs[a.i].name, q.queue.sessions[j])
  }

  // ------------------------------------------------------------------- the queues

  function MutexOf(r: Request): string {
    LockName(InstanceKey(r.name))
  }

  predicate Holds(queue: L.Queue, i: nat) {
    i in queue.stored && i in queue.sessions && queue.sessions[i].phase.Holding?
  }

  /** The queues are in order: one session a request, waiting ones stored, and stored holders the oldest of their mutex. */
  ghost predicate QueueInv(reqs: seq<Request>, queue: L.Queue) {
    && queue.stored <= queue.sessions.Keys
    && (forall i :: i in queue.sessions ==>
          i < |reqs| && queue.sessions[i].name == reqs[i].name && queue.sessions[i].rev < queue.revision)
    && (forall i, j :: i in queue.sessions && j in queue.sessions && queue.sessions[i].rev == queue.sessions[j].rev ==> i == j)
    && (forall i :: i in queue.sessions && queue.sessions[i].phase.Waiting? ==> i in queue.stored)
    && (forall i: nat :: Holds(queue, i) ==> L.Foremost(queue, i))
  }

  /** The table of held mutexes that the queues amount to. */
  ghost predicate HoldersAre(reqs: seq<Request>, queue: L.Queue, locks: map<string, nat>) {
    && (forall l :: l in locks ==> Holds(queue, locks[l]) && locks[l] < |reqs| && MutexOf(reqs[locks[l]]) == l)
    && (forall i: nat :: Holds(queue, i) ==> i < |reqs| && MutexOf(reqs[i]) in locks && locks[MutexOf(reqs[i])] == i)
  }

  /** The same requests hold their mutexes. */
  ghost predicate SameHolders(queue: L.Queue, queue': L.Queue) {
    forall i: nat :: Holds(queue', i) <==> Holds(queue, i)
  }

  lemma SameHoldersAre(reqs: seq<Request>, queue: L.Queue, queue': L.Queue, locks: map<string, nat>)
    requires HoldersAre(reqs, queue, locks) && SameHolders(queue, queue')
    ensures HoldersAre(reqs, queue', locks)
  {
  }

  lemma JoinKeeps(reqs: seq<Request>, queue: L.Queue, i: nat, lease: string)
    requires QueueInv(reqs, queue) && i < |reqs| && i !in queue.sessions
    ensures QueueInv(reqs, L.After(queue, L.Join(i, reqs[i].name, lease)))
    ensures SameHolders(queue, L.After(queue, L.Join(i, reqs[i].name, lease)))
  {
    var queue' := L.After(queue, L.Join(i, reqs[i].name, lease));
    forall j: nat | Holds(queue', j) ensures L.Foremost(queue', j) {
      assert L.Foremost(queue, j);
    }
  }

  lemma EnterKeeps(reqs: seq<Request>, queue: L.Queue, i: nat)
    requires QueueInv(reqs, queue) && L.CanStep(queue, L.Enter(i))
    ensures QueueInv(reqs, L.After(queue, L.Enter(i)))
    ensures forall j: nat :: Holds(L.After(queue, L.Enter(i)), j) <==> Holds(queue, j) || j == i
  {
    var queue' := L.After(queue, L.Enter(i));
    forall j: nat | Holds(queue', j) ensures L.Foremost(queue', j) {
      assert L.Foremost(queue, j);
    }
  }

  /** The foremost of a queue is the only one that can hold its mutex. */
  lemma ForemostIsFree(reqs: seq<Request>, queue: L.Queue, i: nat, j: nat)
    requires QueueInv(reqs, queue) && L.CanStep(queue, L.Enter(i)) && Holds(queue, j)
    ensures reqs[j].name != reqs[i].name
  {
    assert L.Foremost(queue, j) && L.Foremost(queue, i);
  }

  lemma EnterTakes(reqs: seq<Request>, queue: L.Queue, locks: map<string, nat>, i: nat)
    requires QueueInv(reqs, queue) && HoldersAre(reqs, queue, locks) && L.CanStep(queue, L.Enter(i))
    ensures MutexOf(reqs[i]) !in locks
    ensures HoldersAre(reqs, L.After(queue, L.Enter(i)), locks[MutexOf(reqs[i]) := i])
  {
    EnterKeeps(reqs, queue, i);
    forall j: nat | Holds(queue, j) ensures MutexOf(reqs[j]) != MutexOf(reqs[i]) {
      ForemostIsFree(reqs, queue, i, j);
      LockNameInjective(reqs[i].name, reqs[j].name);
    }
    AddHolder(reqs, queue, L.After(queue, L.Enter(i)), locks, i);
  }

  lemma AddHolder(reqs: seq<Request>, queue: L.Queue, queue': L.Queue, locks: map<string, nat>, i: nat)
    requires HoldersAre(reqs, queue, locks) && i < |reqs|
    requires forall j: nat :: Holds(queue', j) <==> Holds(queue, j) || j == i
    requires forall j: nat :: Holds(queue, j) ==> j < |reqs| && MutexOf(reqs[j]) != MutexOf(reqs[i])
    ensures MutexOf(reqs[i]) !in locks && HoldersAre(reqs, queue', locks[MutexOf(reqs[i]) := i])
  {
  }

  /** Taking one session's key away leaves the others as they were. */
  ghost predicate Without(queue: L.Queue, queue': L.Queue, i: nat) {
    && queue'.revision == queue.revision
    && queue'.stored == queue.stored - {i}
    && queue'.sessions.Keys <= queue.sessions.Keys
    && (forall j :: j in queue.sessions && j != i ==> j in queue'.sessions && queue'.sessions[j] == queue.sessions[j])
    && (i in queue'.sessions ==> queue'.sessions[i] == queue.sessions[i] && queue.sessions[i].phase.Holding?)
  }

  lemma WithoutKeeps(reqs: seq<Request>, queue: L.Queue, queue': L.Queue, i: nat)
    requires QueueInv(reqs, queue) && Without(queue, queue', i)
    ensures QueueInv(reqs, queue')
    ensures forall j: nat :: Holds(queue', j) <==> Holds(queue, j) && j != i
  {
    forall j: nat ensures Holds(queue', j) <==> Holds(queue, j) && j != i {
    }
    forall j: nat | Holds(queue', j) ensures L.Foremost(queue', j) {
      assert L.Foremost(queue, j);
    }
  }

  /** The table without one request's mutex, if it held it. */
  function Released(locks: map<string, nat>, l: string, i: nat): map<string, nat> {
    if l in locks && locks[l] == i then locks - {l} else locks
  }

  lemma RemoveHolder(reqs: seq<Request>, queue: L.Queue, queue': L.Queue, locks: map<string, nat>, i: nat)
    requires HoldersAre(reqs, queue, locks) && i < |reqs|
    requires forall j: nat :: Holds(queue', j) <==> Holds(queue, j) && j != i
    ensures HoldersAre(reqs, queue', Released(locks, MutexOf(reqs[i]), i))
  {
  }

  lemma WipeAlone(queue: L.Queue, name: string, i: nat)
    requires queue.stored <= queue.sessions.Keys && i in queue.sessions && queue.sessions[i].name == name
    requires queue.sessions[i].phase.Holding?
    requires forall j :: j in queue.stored && j in queue.sessions && j != i ==> !L.Covers(name, queue.sessions[j])
    ensures Without(queue, L.Wipe(queue, name), i)
  {
    OwnLockKeyInDeleteRange(name, queue.sessions[i].lease);
  }

  // --------------------------------------------------------------- the simulation

  /** The etcd machine's state that a state with queues stands for. */
  ghost predicate StandsFor(reqs: seq<Request>, q: QSys, s: Sys) {
    && q.sys.env.locks == map[]
    && s == q.sys.(env := q.sys.env.(locks := s.env.locks))
    && HoldersAre(reqs, q.queue, s.env.locks)
  }

  /** What a call does apart from the mutexes does not depend on them. */
  lemma ServeBare(e: Env, locks: map<string, nat>, me: nat, r: Request, p: Proc, c: Choice)
    ensures Bare(Serve(e.(locks := locks), me, NextCall(r, p), c).0) == Bare(Serve(e, me, NextCall(r, p), c).0)
    ensures Serve(e.(locks := locks), me, NextCall(r, p), c).1 == Serve(e, me, NextCall(r, p), c).1
  {
    var f := e.(locks := locks);
    KvStepServed(me, r, p, e, c);
    KvStepServed(me, r, p, f, c);
    DiskStepServed(me, r, p, e, c);
    DiskStepServed(me, r, p, f, c);
    AnswerBare(e, locks, NextCall(r, p));
  }

  lemma AnswerBare(e: Env, locks: map<string, nat>, call: Call)
    ensures Answer(e.(locks := locks), call) == Answer(e, call)
  {
  }

  /** What a call does to the queues is what it does to the table of held mutexes. */
  lemma QueueStep(reqs: seq<Request>, queue: L.Queue, locks: map<string, nat>, i: nat, p: Proc, c: Choice)
    requires i < |reqs| && QueueInv(reqs, queue) && HoldersAre(reqs, queue, locks)
    requires p.pc.Lock? && !c.FailBefore? ==> L.CanStep(queue, L.Enter(i))
    requires p.pc.Commit? ==> Holds(queue, i)
    requires p.pc.Commit? && reqs[i].kind.Delete? && !c.FailBefore? ==>
               forall j :: j in queue.stored && j in queue.sessions && j != i ==> !L.Covers(reqs[i].name, queue.sessions[j])
    ensures QueueInv(reqs, QueueAfter(queue, i, reqs[i], p, c))
    ensures HoldersAre(reqs, QueueAfter(queue, i, reqs[i], p, c), LockStep(i, reqs[i], p, locks, c))
    ensures p.pc.Lock? && !c.FailBefore? ==> MutexOf(reqs[i]) !in locks
  {
    if !c.FailBefore? {
      if p.pc.Lock? {
        EnterKeeps(reqs, queue, i);
        EnterTakes(reqs, queue, locks, i);
      } else if LetsGo(reqs[i], p) {
        LetsGoWithout(reqs, queue, i, p, c);
        ReleaseStep(reqs, queue, QueueAfter(queue, i, reqs[i], p, c), locks, i);
      }
    }
  }

  /** However a request lets its mutex go, its key is all that the queues lose. */
  lemma LetsGoWithout(reqs: seq<Request>, queue: L.Queue, i: nat, p: Proc, c: Choice)
    requires i < |reqs| && QueueInv(reqs, queue) && LetsGo(reqs[i], p) && !p.pc.Lock? && !c.FailBefore?
    requires p.pc.Commit? ==> Holds(queue, i)
    requires p.pc.Commit? ==> forall j :: j in queue.stored && j in queue.sessions && j != i ==> !L.Covers(reqs[i].name, queue.sessions[j])
    ensures Without(queue, QueueAfter(queue, i, reqs[i], p, c), i)
  {
    if p.pc.Commit? {
      WipeAlone(queue, reqs[i].name, i);
    }
  }

  lemma ReleaseStep(reqs: seq<Request>, queue: L.Queue, queue': L.Queue, locks: map<string, nat>, i: nat)
    requires i < |reqs| && QueueInv(reqs, queue) && HoldersAre(reqs, queue, locks)
    requires Without(queue, queue', i)
    ensures QueueInv(reqs, queue') && HoldersAre(reqs, queue', Released(locks, MutexOf(reqs[i]), i))
  {
    WithoutKeeps(reqs, queue, queue', i);
    RemoveHolder(reqs, queue, queue', locks, i);
  }

  /** A call of a request over the queues is the same call of the etcd machine. */
  lemma TakeSimulates(reqs: seq<Request>, names: set<string>, q: QSys, s: Sys, i: nat, c: Choice)
    requires Inv(reqs, names, s) && |q.sys.procs| == |reqs| && StandsFor(reqs, q, s) && QueueInv(reqs, q.queue)
    requires QEnabled(reqs, q, Take(i, c)) && Quiet(reqs, q, Take(i, c))
    ensures Enabled(reqs, s, Act(i, c))
    ensures StandsFor(reqs, QNext(reqs, q, Take(i, c)), Next(reqs, s, Act(i, c)))
    ensures QueueInv(reqs, QNext(reqs, q, Take(i, c)).queue)
  {
    var r, p := reqs[i], s.procs[i];
    assert ProcInv(i, r, p, ViewOf(s.env, r));
    QueueStep(reqs, q.queue, s.env.locks, i, p, c);
    SameCalls(q.sys.env, s.env, r, p, c);
    ServeBare(q.sys.env, s.env.locks, i, r, p, c);
    LockStepServed(i, r, p, s.env, c);
    SameHistory(q.sys.env, s.env, i, r, p, c, Resume(r, p, Serve(s.env, i, NextCall(r, p), c).1));
  }

  lemma SameCalls(e: Env, f: Env, r: Request, p: Proc, c: Choice)
    requires e == Bare(f) && !p.pc.Done?
    ensures CanServe(f, NextCall(r, p), c) <==>
              if p.pc.Lock? then c.FailBefore? || LockFree(f, InstanceKey(r.name)) else CanServe(e, NextCall(r, p), c)
  {
  }

  lemma SameHistory(e: Env, f: Env, i: nat, r: Request, p: Proc, c: Choice, q: Proc)
    requires e.kv == f.kv
    ensures Record(r, e, p, c, q) == Record(r, f, p, c, q) && Logged(r, i, e, p, c) == Logged(r, i, f, p, c)
  {
  }

  /** Every quiet action over the queues is an action of the etcd machine or invisible to it. */
  lemma QStepSimulates(reqs: seq<Request>, names: set<string>, q: QSys, s: Sys, a: QAction) returns (step: seq<Action>)
    requires Inv(reqs, names, s) && |q.sys.procs| == |reqs| && StandsFor(reqs, q, s) && QueueInv(reqs, q.queue)
    requires QEnabled(reqs, q, a) && Quiet(reqs, q, a)
    ensures |step| <= 1 && (step != [] ==> Enabled(reqs, s, step[0]))
    ensures StandsFor(reqs, QNext(reqs, q, a), if step == [] then s else Next(reqs, s, step[0]))
    ensures QueueInv(reqs, QNext(reqs, q, a).queue)
  {
    match a
    case Join(i, lease) =>
      JoinKeeps(reqs, q.queue, i, lease);
      SameHoldersAre(reqs, q.queue, L.After(q.queue, L.Join(i, reqs[i].name, lease)), s.env.locks);
      step := [];
    case Take(i, c) =>
      TakeSimulates(reqs, names, q, s, i, c);
      step := [Act(i, c)];
    case RunOut(i) =>
      var l := MutexOf(reqs[i]);
      ReleaseStep(reqs, q.queue, L.After(q.queue, L.Leave(i)), s.env.locks, i);
      step := if l in s.env.locks && s.env.locks[l] == i then [Expire(l)] else [];
  }

  // ------------------------------------------------------------------------- runs

  ghost predicate QLegal(reqs: seq<Request>, q: QSys, run: seq<QAction>)
    requires |q.sys.procs| == |reqs|
    decreases |run|, 0
  {
    run == [] ||
    var init := run[..|run| - 1];
    QLegal(reqs, q, init) && QEnabled(reqs, QExec(reqs, q, init), run[|run| - 1])
  }

  ghost function QExec(reqs: seq<Request>, q: QSys, run: seq<QAction>): (t: QSys)
    requires |q.sys.procs| == |reqs| && QLegal(reqs, q, run)
    ensures |t.sys.procs| == |reqs|
    decreases |run|, 1
  {
    if run == [] then q else QNext(reqs, QExec(reqs, q, run[..|run| - 1]), run[|run| - 1])
  }

  /** Every range delete of the run is quiet. */
  ghost predicate QuietRun(reqs: seq<Request>, q: QSys, run: seq<QAction>)
    requires |q.sys.procs| == |reqs|
  {
    QLegal(reqs, q, run) &&
    (run == [] ||
     var init := run[..|run| - 1];
     QuietRun(reqs, q, init) && Quiet(reqs, QExec(reqs, q, init), run[|run| - 1]))
  }

  /** A run over the queues starts where the etcd machine starts, with nobody queued. */
  ghost predicate QInitial(reqs: seq<Request>, names: set<string>, q: QSys) {
    Initial(reqs, names, q.sys) && q.queue.sessions == map[] && q.queue.stored == {}
  }

  /** Every quiet run over the queues is a run of the etcd machine to the same key space, disks, requests and log. */
  lemma {:induction false} QuietRunIsRun(reqs: seq<Request>, names: set<string>, q: QSys, run: seq<QAction>)
    returns (trace: seq<Action>)
    requires CleanRequests(reqs, names) && QInitial(reqs, names, q) && QuietRun(reqs, q, run)
    ensures Legal(reqs, q.sys, trace)
    ensures StandsFor(reqs, QExec(reqs, q, run), Exec(reqs, q.sys, trace)) && QueueInv(reqs, QExec(reqs, q, run).queue)
  {
    if run == [] {
      trace := [];
    } else {
      var init, a := run[..|run| - 1], run[|run| - 1];
      var before := QuietRunIsRun(reqs, names, q, init);
      trace := ExtendRun(reqs, names, q, QExec(reqs, q, init), a, before);
    }
  }

  lemma ExtendRun(reqs: seq<Request>, names: set<string>, q: QSys, now: QSys, a: QAction, before: seq<Action>)
    returns (trace: seq<Action>)
    requires CleanRequests(reqs, names) && QInitial(reqs, names, q) && Legal(reqs, q.sys, before)
    requires |now.sys.procs| == |reqs| && StandsFor(reqs, now, Exec(reqs, q.sys, before)) && QueueInv(reqs, now.queue)
    requires QEnabled(reqs, now, a) && Quiet(reqs, now, a)
    ensures Legal(reqs, q.sys, trace)
    ensures StandsFor(reqs, QNext(reqs, now, a), Exec(reqs, q.sys, trace)) && QueueInv(reqs, QNext(reqs, now, a).queue)
  {
    InvInitially(reqs, names, q.sys);
    Reachable(reqs, names, q.sys, before);
    var step := QStepSimulates(reqs, names, now, Exec(reqs, q.sys, before), a);
    trace := before + step;
    Extended(reqs, q.sys, before, step);
  }

  lemma Extended(reqs: seq<Request>, s: Sys, before: seq<Action>, step: seq<Action>)
    requires |s.procs| == |reqs| && Legal(reqs, s, before) && |step| <= 1
    requires step != [] ==> Enabled(reqs, Exec(reqs, s, before), step[0])
    ensures Legal(reqs, s, before + step)
    ensures Exec(reqs, s, before + step)
         == if step == [] then Exec(reqs, s, before) else Next(reqs, Exec(reqs, s, before), step[0])
  {
    var trace := before + step;
    if step == [] {
      assert trace == before;
    } else {
      assert trace[..|trace| - 1] == before;
    }
  }

  /** No update is lost in a quiet run over the real queues. */
  lemma NoLostUpdateInQueues(reqs: seq<Request>, names: set<string>, q: QSys, run: seq<QAction>, i: nat) returns (k: nat)
    requires CleanRequests(reqs, names) && QInitial(reqs, names, q) && QuietRun(reqs, q, run) && i < |reqs|
    ensures var log, p := QExec(reqs, q, run).sys.log, QExec(reqs, q, run).sys.procs[i];
            p.pc.Done? && p.outcome.Ok? ==>
            && k < |log| && log[k].request == i && log[k].name == reqs[i].name
            && (forall l :: 0 <= l < |log| && log[l].request == i ==> l == k)
            && log[k].before == Replay(YamlAt(q.sys.env.kv, reqs[i].name), log[..k], reqs[i].name)
            && (reqs[i].oldInstance.Some? ==> log[k].before == Some(reqs[i].oldInstance.value.yaml))
  {
    var trace := QuietRunIsRun(reqs, names, q, run);
    k := NoLostUpdate(reqs, names, q.sys, trace, i);
  }
}
