/**
 * The queue behind an etcd mutex: each session writes a key under the mutex name and enters once no
 * older key of that name is left. The adapter's range delete can remove such keys; this module says
 * exactly when that costs the mutex its exclusion.
 */
module LockQueue {
  import opened Keys

  datatype Phase = Waiting | Holding

  datatype Session = Session(name: string, lease: string, rev: nat, phase: Phase)

  /** The sessions at work, those whose key is stored, and the next create revision. */
  datatype Queue = Queue(sessions: map<nat, Session>, stored: set<nat>, revision: nat)

  datatype Step = Join(id: nat, name: string, lease: string) | Enter(id: nat) | Leave(id: nat)

  /** No stored key of the same mutex is older. */
  predicate Foremost(q: Queue, id: nat)
    requires id in q.sessions
  {
    forall j :: j in q.stored && j in q.sessions && q.sessions[j].name == q.sessions[id].name
      ==> q.sessions[id].rev <= q.sessions[j].rev
  }

  predicate CanStep(q: Queue, s: Step) {
    match s
    case Join(id, _, _) => id !in q.sessions
    case Enter(id) => id in q.sessions && q.sessions[id].phase.Waiting? && Foremost(q, id)
    case Leave(id) => id in q.sessions
  }

  function After(q: Queue, s: Step): Queue
    requires CanStep(q, s)
  {
    match s
    case Join(id, name, lease) =>
      Queue(q.sessions[id := Session(name, lease, q.revision, Waiting)], q.stored + {id}, q.revision + 1)
    case Enter(id) => q.(sessions := q.sessions[id := q.sessions[id].(phase := Holding)])
    case Leave(id) => q.(sessions := q.sessions - {id}, stored := q.stored - {id})
  }

  /** The range delete of one instance takes every lock key in its range with it. */
  function Wipe(q: Queue, name: string): Queue {
    q.(stored := set id | id in q.stored && (id in q.sessions ==> !Covers(name, q.sessions[id])))
  }

  predicate Covers(name: string, s: Session) {
    InDeleteRange(name, LockKey(s.name, s.lease))
  }

  predicate CanRun(q: Queue, steps: seq<Step>)
    decreases |steps|
  {
    steps == [] || (CanStep(q, steps[0]) && CanRun(After(q, steps[0]), steps[1..]))
  }

  function Run(q: Queue, steps: seq<Step>): Queue
    requires CanRun(q, steps)
    decreases |steps|
  {
    if steps == [] then q else Run(After(q, steps[0]), steps[1..])
  }

  ghost predicate Exclusive(q: Queue) {
    forall i, j :: i in q.sessions && j in q.sessions
      && q.sessions[i].phase.Holding? && q.sessions[j].phase.Holding? && q.sessions[i].name == q.sessions[j].name
      ==> i == j
  }

  /** Every session's key is stored under its own revision, and a holder's is the oldest of its mutex. */
  ghost predicate Valid(q: Queue) {
    && q.stored == q.sessions.Keys
    && (forall i :: i in q.sessions ==> q.sessions[i].rev < q.revision)
    && (forall i, j :: i in q.sessions && j in q.sessions && q.sessions[i].rev == q.sessions[j].rev ==> i == j)
    && (forall i :: i in q.sessions && q.sessions[i].phase.Holding? ==> Foremost(q, i))
  }

  lemma ValidIsExclusive(q: Queue)
    requires Valid(q)
    ensures Exclusive(q)
  {
    forall i, j | i in q.sessions && j in q.sessions && q.sessions[i].phase.Holding? && q.sessions[j].phase.Holding?
      && q.sessions[i].name == q.sessions[j].name
      ensures i == j
    {
      assert q.sessions[i].rev <= q.sessions[j].rev <= q.sessions[i].rev;
    }
  }

  lemma ValidStep(q: Queue, s: Step)
    requires Valid(q) && CanStep(q, s)
    ensures Valid(After(q, s))
  {
    var p := After(q, s);
    forall i | i in p.sessions && p.sessions[i].phase.Holding? ensures Foremost(p, i) {
      assert i in q.sessions && (q.sessions[i].phase.Holding? || s == Enter(i));
      assert Foremost(q, i);
    }
  }

  lemma {:induction false} ValidRun(q: Queue, steps: seq<Step>)
    requires Valid(q) && CanRun(q, steps)
    ensures Exclusive(Run(q, steps))
    decreases |steps|
  {
    ValidIsExclusive(q);
    if steps != [] {
      ValidStep(q, steps[0]);
      ValidRun(After(q, steps[0]), steps[1..]);
    }
  }

  lemma {:induction false} Fresh(s: set<nat>) returns (id: nat)
    ensures id !in s
    ensures forall x :: x in s ==> x < id
  {
    if s == {} {
      id := 0;
    } else {
      var x :| x in s;
      var rest := Fresh(s - {x});
      id := if rest <= x then x + 1 else rest;
      assert forall y :: y in s ==> y == x || y in s - {x};
    }
  }

  /** Which lock keys a delete covers depends on the mutex name alone. */
  lemma CoversByName(name: string, a: Session, b: Session)
    requires '/' !in name && a.name == b.name && Covers(name, a)
    ensures Covers(name, b)
  {
    DeleteRangeReach(name, a.name, "", a.lease);
    DeleteRangeReach(name, b.name, "", b.lease);
  }

  /** Exclusive as far as sessions other than the one of a given revision go. */
  ghost predicate ExclusiveBut(q: Queue, rev: nat) {
    forall i, j :: i in q.sessions && j in q.sessions
      && q.sessions[i].phase.Holding? && q.sessions[j].phase.Holding? && q.sessions[i].name == q.sessions[j].name
      && q.sessions[i].rev != rev && q.sessions[j].rev != rev
      ==> i == j
  }

  /** Once its keys are gone, a covered session holds (or can enter), and a newcomer can enter beside it. */
  lemma CoveredBreaks(q: Queue, name: string, i: nat, rev: nat) returns (steps: seq<Step>)
    requires Valid(q) && '/' !in name && i in q.sessions && Covers(name, q.sessions[i])
    requires rev != q.sessions[i].rev && rev != q.revision
    ensures CanRun(Wipe(q, name), steps) && !ExclusiveBut(Run(Wipe(q, name), steps), rev)
  {
    var w := Wipe(q, name);
    var f := Fresh(q.sessions.Keys);
    var m := q.sessions[i].name;
    forall j | j in w.stored && j in w.sessions ensures w.sessions[j].name != m {
      if q.sessions[j].name == m {
        CoversByName(name, q.sessions[i], q.sessions[j]);
      }
    }
    var entered := if w.sessions[i].phase.Waiting? then After(w, Enter(i)) else w;
    steps := TwoHolders(entered, i, f, rev);
    if w.sessions[i].phase.Waiting? {
      steps := [Enter(i)] + steps;
      assert steps[1..] == steps[1..] && [Enter(i)] + steps[1..] == steps;
    }
  }

  lemma TwoHolders(q: Queue, i: nat, f: nat, rev: nat) returns (steps: seq<Step>)
    requires i in q.sessions && q.sessions[i].phase.Holding? && f !in q.sessions
    requires forall j :: j in q.stored && j in q.sessions ==> q.sessions[j].name != q.sessions[i].name
    requires rev != q.sessions[i].rev && rev != q.revision
    ensures CanRun(q, steps) && !ExclusiveBut(Run(q, steps), rev)
  {
    var join, enter := Join(f, q.sessions[i].name, ""), Enter(f);
    steps := [join, enter];
    var a := After(q, join);
    assert Foremost(a, f);
    var b := After(a, enter);
    assert steps[1..] == [enter] && steps[1..][1..] == [];
    assert CanRun(b, []) && CanRun(a, [enter]);
    assert Run(q, steps) == Run(a, [enter]) == Run(b, []) == b;
    assert b.sessions[i].phase.Holding? && b.sessions[f].phase.Holding?;
  }

  /** A deleter that holds its mutex covers its own lock key, so its range delete always opens the mutex to one more. */
  lemma DeleteOpensItsOwnMutex(q: Queue, i: nat) returns (steps: seq<Step>)
    requires Valid(q) && i in q.sessions && q.sessions[i].phase.Holding? && '/' !in q.sessions[i].name
    ensures CanRun(Wipe(q, q.sessions[i].name), steps)
    ensures !Exclusive(Run(Wipe(q, q.sessions[i].name), steps))
  {
    OwnLockKeyInDeleteRange(q.sessions[i].name, q.sessions[i].lease);
    steps := CoveredBreaks(q, q.sessions[i].name, i, q.revision + 1);
  }

  /** Every session but the one of the given revision still has its key stored, and its holders are the oldest of their mutexes. */
  ghost predicate ValidBut(q: Queue, rev: nat) {
    && rev < q.revision
    && (forall i :: i in q.sessions && q.sessions[i].rev != rev ==> i in q.stored)
    && (forall i :: i in q.sessions ==> q.sessions[i].rev < q.revision)
    && (forall i, j :: i in q.sessions && j in q.sessions && q.sessions[i].rev == q.sessions[j].rev ==> i == j)
    && (forall i :: i in q.sessions && q.sessions[i].phase.Holding? && q.sessions[i].rev != rev ==> Foremost(q, i))
  }

  lemma ValidButStep(q: Queue, s: Step, rev: nat)
    requires ValidBut(q, rev) && CanStep(q, s)
    ensures ValidBut(After(q, s), rev)
  {
    var p := After(q, s);
    forall i | i in p.sessions && p.sessions[i].phase.Holding? && p.sessions[i].rev != rev ensures Foremost(p, i) {
      assert i in q.sessions && (q.sessions[i].phase.Holding? || s == Enter(i));
      assert Foremost(q, i);
    }
  }

  lemma {:induction false} ValidButRun(q: Queue, steps: seq<Step>, rev: nat)
    requires ValidBut(q, rev) && CanRun(q, steps)
    ensures ExclusiveBut(Run(q, steps), rev)
    decreases |steps|
  {
    if steps != [] {
      ValidButStep(q, steps[0], rev);
      ValidButRun(After(q, steps[0]), steps[1..], rev);
    } else {
      forall i, j | i in q.sessions && j in q.sessions && q.sessions[i].phase.Holding? && q.sessions[j].phase.Holding?
        && q.sessions[i].name == q.sessions[j].name && q.sessions[i].rev != rev && q.sessions[j].rev != rev
        ensures i == j
      {
        assert q.sessions[i].rev <= q.sessions[j].rev <= q.sessions[i].rev;
      }
    }
  }

  /**
   * After the range delete of a session that holds the mutex of the deleted name, all other sessions
   * exclude each other over every later run exactly when the delete covered no lock key but its own.
   */
  lemma ExclusionSurvivesExactly(q: Queue, d: nat)
    requires Valid(q) && d in q.sessions && q.sessions[d].phase.Holding? && '/' !in q.sessions[d].name
    ensures (forall steps :: CanRun(Wipe(q, q.sessions[d].name), steps)
                ==> ExclusiveBut(Run(Wipe(q, q.sessions[d].name), steps), q.sessions[d].rev))
       <==> (forall i :: i in q.sessions && i != d ==> !Covers(q.sessions[d].name, q.sessions[i]))
  {
    var name, rev := q.sessions[d].name, q.sessions[d].rev;
    var w := Wipe(q, name);
    if i :| i in q.sessions && i != d && Covers(name, q.sessions[i]) {
      var steps := CoveredBreaks(q, name, i, rev);
    } else {
      forall i | i in w.sessions && w.sessions[i].phase.Holding? && w.sessions[i].rev != rev ensures Foremost(w, i) {
        assert Foremost(q, i);
      }
      forall steps | CanRun(w, steps) ensures ExclusiveBut(Run(w, steps), rev) {
        ValidButRun(w, steps, rev);
      }
    }
  }

  /** Among clean names that is so exactly when nobody else holds or awaits the deleted instance's mutex. */
  lemma HarmlessExactlyWhenAlone(q: Queue, names: set<string>, d: nat)
    requires Valid(q) && CleanNames(names) && forall i :: i in q.sessions ==> q.sessions[i].name in names
    requires d in q.sessions && q.sessions[d].phase.Holding?
    ensures (forall steps :: CanRun(Wipe(q, q.sessions[d].name), steps)
                ==> ExclusiveBut(Run(Wipe(q, q.sessions[d].name), steps), q.sessions[d].rev))
       <==> (forall i :: i in q.sessions && i != d ==> q.sessions[i].name != q.sessions[d].name)
  {
    ExclusionSurvivesExactly(q, d);
    forall i | i in q.sessions
      ensures Covers(q.sessions[d].name, q.sessions[i]) <==> q.sessions[i].name == q.sessions[d].name
    {
      DeleteCoversOwnMutexOnly(names, q.sessions[d].name, q.sessions[i].name, q.sessions[i].lease);
    }
  }

  /** Two sessions queued behind the deleter then enter side by side, before it has let go. */
  lemma WaitersEnterTogether(q: Queue, name: string, a: nat, b: nat)
    requires Valid(q) && '/' !in name && a in q.sessions && b in q.sessions && a != b
    requires q.sessions[a].name == q.sessions[b].name == name
    requires q.sessions[a].phase.Waiting? && q.sessions[b].phase.Waiting?
    ensures CanRun(Wipe(q, name), [Enter(a), Enter(b)])
    ensures !Exclusive(Run(Wipe(q, name), [Enter(a), Enter(b)]))
  {
    var w := Wipe(q, name);
    forall j | j in w.stored && j in w.sessions ensures w.sessions[j].name != name {
      OwnLockKeyInDeleteRange(q.sessions[j].name, q.sessions[j].lease);
    }
    var v := After(w, Enter(a));
    var u := After(v, Enter(b));
    var steps := [Enter(a), Enter(b)];
    assert steps[1..] == [Enter(b)] && steps[1..][1..] == [];
    assert CanRun(u, []) && CanRun(v, [Enter(b)]);
    assert Run(w, steps) == Run(v, [Enter(b)]) == Run(u, []) == u;
    assert u.sessions[a].phase.Holding? && u.sessions[b].phase.Holding?;
  }
}
