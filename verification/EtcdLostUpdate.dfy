/**
 * What a range delete that is not quiet costs: a run over the real queues in which four requests for one
 * instance all do as they should, and yet one of them replaces a manifest that it did not name.
 */
module EtcdLostUpdate {
  import opened Requests
  import opened Keys
  import opened EtcdMachine
  import opened EtcdInvariant
  import opened EtcdHistory
  import opened EtcdLocks
  import L = LockQueue

  // ------------------------------------------------------------------------- runs

  ghost predicate Leads(reqs: seq<Request>, q: QSys, run: seq<QAction>, t: QSys) {
    |q.sys.procs| == |reqs| && QLegal(reqs, q, run) && QExec(reqs, q, run) == t
  }

  ghost predicate Reaches(reqs: seq<Request>, q: QSys, t: QSys) {
    exists run :: Leads(reqs, q, run, t)
  }

  lemma ReachesSelf(reqs: seq<Request>, q: QSys)
    requires |q.sys.procs| == |reqs|
    ensures Reaches(reqs, q, q)
  {
    assert Leads(reqs, q, [], q);
  }

  lemma ReachesNext(reqs: seq<Request>, q: QSys, t: QSys, a: QAction)
    requires Reaches(reqs, q, t) && |t.sys.procs| == |reqs| && QEnabled(reqs, t, a)
    ensures Reaches(reqs, q, QNext(reqs, t, a))
  {
    var run :| Leads(reqs, q, run, t);
    assert (run + [a])[..|run + [a]| - 1] == run;
    assert Leads(reqs, q, run + [a], QNext(reqs, t, a));
  }

  /** Of all but the disks, a step of one request on its own control point. */
  predicate OnlyProc(q: QSys, t: QSys, i: nat) {
    && i < |q.sys.procs| == |t.sys.procs|
    && t.sys.procs == q.sys.procs[i := t.sys.procs[i]]
    && t.sys.env.kv == q.sys.env.kv
    && t.sys.log == q.sys.log
  }

  // ---------------------------------------------------------------- one request

  /** Whether the comparison and the locked read of a request will find what they ask for. */
  predicate Content(r: Request, kv: map<string, string>) {
    && NamesAgree(r)
    && (r.oldInstance.Some? ==> YamlAt(kv, r.name) == Some(r.oldInstance.value.yaml))
    && (r.kind.Delete? ==> YamlAt(kv, r.name).Some?)
  }

  predicate BeforeCommit(r: Request, pc: Pc) {
    match pc
    case CheckExists => r.oldInstance.Some?
    case CheckValue => r.oldInstance.Some?
    case Load => r.kind.Delete?
    case WriteYaml => true
    case WriteFile(k) => k <= |r.files|
    case Tool => true
    case _ => false
  }

  function ToCommit(r: Request, pc: Pc): nat {
    match pc
    case CheckExists => |r.files| + 6
    case CheckValue => |r.files| + 5
    case Load => |r.files| + 4
    case WriteYaml => |r.files| + 3
    case WriteFile(k) => if k <= |r.files| then |r.files| - k + 2 else 0
    case Tool => 1
    case _ => 0
  }

  /** One call between the lock and the commit. */
  lemma StepInside(reqs: seq<Request>, q: QSys, i: nat)
    requires i < |reqs| == |q.sys.procs| && BeforeCommit(reqs[i], q.sys.procs[i].pc) && Content(reqs[i], q.sys.env.kv)
    ensures QEnabled(reqs, q, Take(i, Succeed))
    ensures var t := QNext(reqs, q, Take(i, Succeed));
            && OnlyProc(q, t, i) && t.queue == q.queue
            && (BeforeCommit(reqs[i], t.sys.procs[i].pc) || t.sys.procs[i].pc.Commit?)
            && ToCommit(reqs[i], t.sys.procs[i].pc) < ToCommit(reqs[i], q.sys.procs[i].pc)
            && (reqs[i].kind.Apply? ==> t.sys.procs[i].yaml == q.sys.procs[i].yaml)
            && t.sys.procs[i].outcome == q.sys.procs[i].outcome
  {
    KvStepServed(i, reqs[i], q.sys.procs[i], q.sys.env, Succeed);
  }

  /** From behind the lock to the commit. */
  lemma {:induction false} ToTheCommit(reqs: seq<Request>, first: QSys, q: QSys, i: nat) returns (t: QSys)
    requires i < |reqs| == |q.sys.procs| && Reaches(reqs, first, q) && Content(reqs[i], q.sys.env.kv)
    requires BeforeCommit(reqs[i], q.sys.procs[i].pc) || q.sys.procs[i].pc.Commit?
    ensures Reaches(reqs, first, t) && OnlyProc(q, t, i) && t.queue == q.queue && t.sys.procs[i].pc.Commit?
    ensures reqs[i].kind.Apply? ==> t.sys.procs[i].yaml == q.sys.procs[i].yaml
    ensures t.sys.procs[i].outcome == q.sys.procs[i].outcome
    decreases ToCommit(reqs[i], q.sys.procs[i].pc)
  {
    t := q;
    if !q.sys.procs[i].pc.Commit? {
      StepInside(reqs, q, i);
      ReachesNext(reqs, first, q, Take(i, Succeed));
      t := ToTheCommit(reqs, first, QNext(reqs, q, Take(i, Succeed)), i);
    }
  }

  predicate AtTheLock(r: Request, p: Proc) {
    p.pc.Lock? && p.outcome.Ok? && (r.kind.Apply? ==> p.yaml == r.yaml)
  }

  predicate AtTheCommit(r: Request, p: Proc) {
    p.pc.Commit? && p.outcome.Ok? && (r.kind.Apply? ==> p.yaml == r.yaml)
  }

  /** From the queue to the commit, for a request that may enter and will be content with what it finds. */
  lemma GoInside(reqs: seq<Request>, first: QSys, q: QSys, i: nat) returns (t: QSys)
    requires i < |reqs| == |q.sys.procs| && Reaches(reqs, first, q) && Content(reqs[i], q.sys.env.kv)
    requires AtTheLock(reqs[i], q.sys.procs[i]) && L.CanStep(q.queue, L.Enter(i))
    ensures Reaches(reqs, first, t) && OnlyProc(q, t, i) && AtTheCommit(reqs[i], t.sys.procs[i])
    ensures t.queue == L.After(q.queue, L.Enter(i))
  {
    ReachesNext(reqs, first, q, Take(i, Succeed));
    t := ToTheCommit(reqs, first, QNext(reqs, q, Take(i, Succeed)), i);
  }

  /** From its start to the queue of its mutex. */
  lemma LineUp(reqs: seq<Request>, first: QSys, q: QSys, i: nat) returns (t: QSys)
    requires i < |reqs| == |q.sys.procs| && Reaches(reqs, first, q)
    requires NamesAgree(reqs[i]) && (reqs[i].kind.Delete? ==> YamlAt(q.sys.env.kv, reqs[i].name).Some?)
    requires q.sys.procs[i] == NewProc(reqs[i]) && i !in q.queue.sessions
    ensures Reaches(reqs, first, t) && OnlyProc(q, t, i) && AtTheLock(reqs[i], t.sys.procs[i])
    ensures t.queue == L.After(q.queue, L.Join(i, reqs[i].name, ""))
  {
    ReachesNext(reqs, first, q, Take(i, Succeed));
    t := QNext(reqs, q, Take(i, Succeed));
    ReachesNext(reqs, first, t, Take(i, Succeed));
    t := QNext(reqs, t, Take(i, Succeed));
    if reqs[i].kind.Delete? {
      ReachesNext(reqs, first, t, Take(i, Succeed));
      t := QNext(reqs, t, Take(i, Succeed));
    }
    ReachesNext(reqs, first, t, Join(i, ""));
    t := QNext(reqs, t, Join(i, ""));
  }

  /** An Apply at its commit stores its manifest, whatever it finds. */
  lemma ApplyCommits(reqs: seq<Request>, first: QSys, q: QSys, i: nat) returns (t: QSys)
    requires i < |reqs| == |q.sys.procs| && Reaches(reqs, first, q)
    requires reqs[i].kind.Apply? && AtTheCommit(reqs[i], q.sys.procs[i])
    ensures Reaches(reqs, first, t) && |t.sys.procs| == |reqs| && t.sys.procs == q.sys.procs[i := t.sys.procs[i]]
    ensures t.queue == q.queue && YamlAt(t.sys.env.kv, reqs[i].name) == Some(reqs[i].yaml)
    ensures t.sys.procs[i].pc == PutFile(0) && t.sys.procs[i].outcome.Ok?
    ensures t.sys.log == q.sys.log + [Event(i, reqs[i].name, YamlAt(q.sys.env.kv, reqs[i].name), Some(reqs[i].yaml))]
  {
    ReachesNext(reqs, first, q, Take(i, Succeed));
    t := QNext(reqs, q, Take(i, Succeed));
    KvStepServed(i, reqs[i], q.sys.procs[i], q.sys.env, Succeed);
  }

  predicate AfterCommit(r: Request, p: Proc) {
    p.outcome.Ok? && (p.pc.Cleaning? || (p.pc.PutFile? && p.pc.k <= |r.files|))
  }

  /** An upper bound on the calls from the commit to the answer. */
  function ToAnswer(r: Request, p: Proc): nat {
    match p.pc
    case PutFile(k) => if k <= |r.files| then |r.files| - k + |p.cleanups| + 2 else 0
    case Cleaning => |p.cleanups| + 1
    case _ => 0
  }

  lemma StepOut(reqs: seq<Request>, q: QSys, i: nat)
    requires i < |reqs| == |q.sys.procs| && AfterCommit(reqs[i], q.sys.procs[i])
    ensures QEnabled(reqs, q, Take(i, Succeed))
    ensures var t := QNext(reqs, q, Take(i, Succeed));
            && t.sys.log == q.sys.log && t.sys.procs[i].outcome.Ok?
            && (AfterCommit(reqs[i], t.sys.procs[i]) || t.sys.procs[i].pc.Done?)
            && ToAnswer(reqs[i], t.sys.procs[i]) < ToAnswer(reqs[i], q.sys.procs[i])
  {
  }

  lemma {:induction false} ToTheAnswer(reqs: seq<Request>, first: QSys, q: QSys, i: nat) returns (t: QSys)
    requires i < |reqs| == |q.sys.procs| && Reaches(reqs, first, q)
    requires AfterCommit(reqs[i], q.sys.procs[i]) || (q.sys.procs[i].pc.Done? && q.sys.procs[i].outcome.Ok?)
    ensures Reaches(reqs, first, t) && |t.sys.procs| == |reqs| && t.sys.log == q.sys.log
    ensures t.sys.procs[i].pc.Done? && t.sys.procs[i].outcome.Ok?
    decreases ToAnswer(reqs[i], q.sys.procs[i])
  {
    t := q;
    if !q.sys.procs[i].pc.Done? {
      StepOut(reqs, q, i);
      ReachesNext(reqs, first, q, Take(i, Succeed));
      t := ToTheAnswer(reqs, first, QNext(reqs, q, Take(i, Succeed)), i);
    }
  }

  // --------------------------------------------------------------- four requests

  /**
   * A Delete, an Apply that names no old manifest, and two that name the manifest of that one, all for
   * one instance.
   */
  predicate Rivals(reqs: seq<Request>, d: nat, a: nat, b: nat, c: nat) {
    && d < |reqs| && a < |reqs| && b < |reqs| && c < |reqs| && Distinct(d, a, b, c)
    && '/' !in reqs[d].name && reqs[a].name == reqs[b].name == reqs[c].name == reqs[d].name
    && reqs[d].kind.Delete? && reqs[a].kind.Apply? && reqs[b].kind.Apply? && reqs[c].kind.Apply?
    && reqs[d].oldInstance.None? && reqs[a].oldInstance.None?
    && reqs[b].oldInstance == reqs[c].oldInstance == Some(OldInstance(reqs[a].name, reqs[a].yaml))
  }

  predicate Distinct(d: nat, a: nat, b: nat, c: nat) {
    d != a && d != b && d != c && a != b && a != c && b != c
  }

  /** The session of a request waits at its lock. */
  predicate Queued(reqs: seq<Request>, q: QSys, i: nat)
    requires |q.sys.procs| == |reqs|
  {
    && i < |reqs| && AtTheLock(reqs[i], q.sys.procs[i])
    && i in q.queue.sessions && q.queue.sessions[i].phase.Waiting?
  }

  ghost predicate AllNamed(queue: L.Queue, name: string) {
    queue.stored <= queue.sessions.Keys && forall j :: j in queue.sessions ==> queue.sessions[j].name == name
  }

  /** One more request lines up; whoever queued still does, and whoever was not at work still is not. */
  lemma LineUpBehind(reqs: seq<Request>, first: QSys, q: QSys, i: nat, name: string) returns (t: QSys)
    requires i < |reqs| == |q.sys.procs| && Reaches(reqs, first, q) && AllNamed(q.queue, name)
    requires NamesAgree(reqs[i]) && reqs[i].kind.Apply? && reqs[i].name == name
    requires Fresh(reqs, q, i)
    ensures Reaches(reqs, first, t) && |t.sys.procs| == |reqs| && AllNamed(t.queue, name) && Queued(reqs, t, i)
    ensures forall j :: 0 <= j < |reqs| && j != i ==> t.sys.procs[j] == q.sys.procs[j]
    ensures forall j: nat :: j != i && Queued(reqs, q, j) ==> Queued(reqs, t, j)
    ensures forall j: nat :: j != i && Fresh(reqs, q, j) ==> Fresh(reqs, t, j)
  {
    t := LineUp(reqs, first, q, i);
  }

  predicate Fresh(reqs: seq<Request>, q: QSys, i: nat)
    requires |q.sys.procs| == |reqs|
  {
    i < |reqs| && q.sys.procs[i] == NewProc(reqs[i]) && i !in q.queue.sessions
  }

  /** The Delete gets to its commit. */
  lemma Enters(reqs: seq<Request>, q: QSys, d: nat) returns (t: QSys)
    requires d < |reqs| == |q.sys.procs| && reqs[d].kind.Delete? && reqs[d].oldInstance.None?
    requires YamlAt(q.sys.env.kv, reqs[d].name).Some? && q.queue.sessions == map[] && q.queue.stored == {}
    requires forall i: nat :: i < |reqs| ==> Fresh(reqs, q, i)
    ensures Reaches(reqs, q, t) && |t.sys.procs| == |reqs| && AtTheCommit(reqs[d], t.sys.procs[d])
    ensures AllNamed(t.queue, reqs[d].name) && forall i: nat :: i < |reqs| && i != d ==> Fresh(reqs, t, i)
  {
    ReachesSelf(reqs, q);
    assert Fresh(reqs, q, d);
    t := LineUp(reqs, q, q, d);
    t := GoInside(reqs, q, t, d);
    forall i: nat | i < |reqs| && i != d ensures Fresh(reqs, t, i) {
      assert Fresh(reqs, q, i);
    }
  }

  /** The Delete gets to its commit, and the others line up behind it. */
  lemma Gather(reqs: seq<Request>, q: QSys, d: nat, a: nat, b: nat, c: nat) returns (t: QSys)
    requires |q.sys.procs| == |reqs| && Rivals(reqs, d, a, b, c)
    requires YamlAt(q.sys.env.kv, reqs[d].name).Some? && q.queue.sessions == map[] && q.queue.stored == {}
    requires forall i: nat :: i < |reqs| ==> Fresh(reqs, q, i)
    ensures Reaches(reqs, q, t) && |t.sys.procs| == |reqs| && AtTheCommit(reqs[d], t.sys.procs[d])
    ensures Queued(reqs, t, a) && Queued(reqs, t, b) && Queued(reqs, t, c) && AllNamed(t.queue, reqs[d].name)
  {
    t := Enters(reqs, q, d);
    t := LineUpBehind(reqs, q, t, a, reqs[d].name);
    t := LineUpBehind(reqs, q, t, b, reqs[d].name);
    t := LineUpBehind(reqs, q, t, c, reqs[d].name);
  }

  /** The range delete takes all their keys away. */
  lemma OpenUp(reqs: seq<Request>, first: QSys, q: QSys, d: nat) returns (t: QSys)
    requires d < |reqs| == |q.sys.procs| && Reaches(reqs, first, q)
    requires reqs[d].kind.Delete? && AtTheCommit(reqs[d], q.sys.procs[d]) && AllNamed(q.queue, reqs[d].name)
    ensures Reaches(reqs, first, t) && |t.sys.procs| == |reqs| && t.sys.procs == q.sys.procs[d := t.sys.procs[d]]
    ensures t.queue.sessions == q.queue.sessions && t.queue.stored == {}
  {
    ReachesNext(reqs, first, q, Take(d, Succeed));
    t := QNext(reqs, q, Take(d, Succeed));
    forall j | j in q.queue.stored ensures L.Covers(reqs[d].name, q.queue.sessions[j]) {
      OwnLockKeyInDeleteRange(reqs[d].name, q.queue.sessions[j].lease);
    }
  }

  /** With no key left, the first Apply recreates the instance, and the other two both commit over it. */
  lemma Race(reqs: seq<Request>, first: QSys, q: QSys, d: nat, a: nat, b: nat, c: nat) returns (t: QSys)
    requires |q.sys.procs| == |reqs| && Reaches(reqs, first, q) && Rivals(reqs, d, a, b, c)
    requires Queued(reqs, q, a) && Queued(reqs, q, b) && Queued(reqs, q, c) && q.queue.stored == {}
    ensures Reaches(reqs, first, t) && |t.sys.procs| == |reqs|
    ensures t.sys.procs[c].pc.Done? && t.sys.procs[c].outcome.Ok?
    ensures |t.sys.log| > 0
         && t.sys.log[|t.sys.log| - 1] == Event(c, reqs[c].name, Some(reqs[b].yaml), Some(reqs[c].yaml))
  {
    t := GoInside(reqs, first, q, a);
    t := ApplyCommits(reqs, first, t, a);
    t := GoInside(reqs, first, t, b);
    t := GoInside(reqs, first, t, c);
    t := ApplyCommits(reqs, first, t, b);
    t := ApplyCommits(reqs, first, t, c);
    t := ToTheAnswer(reqs, first, t, c);
  }

  /**
   * From any key space with the instance in it, among any other requests, there is a run in which one
   * of the four succeeds by replacing the other's manifest, though it named a different one.
   */
  lemma DeleteLosesAnUpdate(reqs: seq<Request>, q: QSys, d: nat, a: nat, b: nat, c: nat) returns (run: seq<QAction>)
    requires |q.sys.procs| == |reqs| && Rivals(reqs, d, a, b, c) && reqs[b].yaml != reqs[a].yaml
    requires YamlAt(q.sys.env.kv, reqs[d].name).Some? && q.queue.sessions == map[] && q.queue.stored == {}
    requires forall i: nat :: i < |reqs| ==> Fresh(reqs, q, i)
    ensures QLegal(reqs, q, run)
    ensures var t := QExec(reqs, q, run);
            && t.sys.procs[c].pc.Done? && t.sys.procs[c].outcome.Ok?
            && exists k: nat :: k < |t.sys.log| && t.sys.log[k].request == c
                 && t.sys.log[k].before.Some? && t.sys.log[k].before.value != reqs[c].oldInstance.value.yaml
  {
    var t := Gather(reqs, q, d, a, b, c);
    t := OpenUp(reqs, q, t, d);
    t := Race(reqs, q, t, d, a, b, c);
    run :| Leads(reqs, q, run, t);
    assert t.sys.log[|t.sys.log| - 1].request == c;
  }
}
