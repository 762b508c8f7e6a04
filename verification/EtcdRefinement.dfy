/** The specification of the etcd adapter as an atomic store, and the proof that every run refines it. */
module AtomicStore {
  import opened Requests
  import opened Keys
  import opened EtcdMachine

  /** A request waits, has replaced the manifest and puts its files, or has its answer. */
  datatype Status = Pending | Written(files: nat) | Responded(outcome: Outcome)

  datatype State = State(store: map<string, Entry>, status: seq<Status>)

  function Lookup(store: map<string, Entry>, name: string): Option<Entry> {
    if name in store then Some(store[name]) else None
  }

  function SetEntry(store: map<string, Entry>, name: string, entry: Option<Entry>): map<string, Entry> {
    if entry.Some? then store[name := entry.value] else store - {name}
  }

  /** The compare of compare-and-set: a request without an old instance always passes. */
  predicate Passes(r: Request, entry: Option<Entry>) {
    r.oldInstance.Some? ==> entry.Some? && entry.value.yaml == r.oldInstance.value.yaml
  }

  /** An answer that leaves the store alone, with the reason visible in the store at that moment. */
  predicate MayRefuse(r: Request, entry: Option<Entry>, outcome: Outcome) {
    match outcome
    case Ok => false
    case NameMismatch => !NamesAgree(r)
    case NoKey => NamesAgree(r) && r.kind.Delete? && entry.None?
    case InstanceNoExist => NamesAgree(r) && r.oldInstance.Some? && entry.None?
    case OldDiffers => NamesAgree(r) && r.oldInstance.Some? && entry.Some? && !Passes(r, entry)
    case UnexpectedCount => NamesAgree(r) && r.kind.Delete? && r.oldInstance.None? && entry.None?
    case ToolRejected => r.server.kubectl || (r.kind.Apply? && r.server.kustomize)
    case Failed => true
  }

  /** Compare-and-set and compare-and-delete in one atomic step each; then one atomic put a file. */
  predicate Acts(r: Request, entry: Option<Entry>, st: Status, entry': Option<Entry>, st': Status) {
    match st
    case Pending =>
      || (entry' == entry && st'.Responded? && MayRefuse(r, entry, st'.outcome))
      || (&& r.kind.Apply? && NamesAgree(r) && Passes(r, entry)
          && entry' == Some(Entry(r.yaml, if entry.Some? then entry.value.files else map[]))
          && (st' == Written(0) || st' == Responded(Failed)))
      || (&& r.kind.Delete? && NamesAgree(r) && Passes(r, entry) && entry.Some?
          && entry' == None
          && (st' == Responded(Ok) || st' == Responded(Failed)))
    case Written(k) =>
      if k < |r.files| then
        || (entry' == entry && st' == Responded(Failed))
        || (&& entry.Some?
            && entry' == Some(Entry(entry.value.yaml, entry.value.files[r.files[k].name := r.files[k].contents]))
            && (st' == Written(k + 1) || st' == Responded(Failed)))
      else entry' == entry && st' == Responded(Ok)
    case Responded(_) => false
  }

  /** One request acts on its own entry. */
  predicate AtomicStep(reqs: seq<Request>, a: State, b: State, i: nat) {
    && |a.status| == |b.status| == |reqs| && i < |reqs|
    && b.status == a.status[i := b.status[i]]
    && b.store == SetEntry(a.store, reqs[i].name, Lookup(b.store, reqs[i].name))
    && Acts(reqs[i], Lookup(a.store, reqs[i].name), a.status[i], Lookup(b.store, reqs[i].name), b.status[i])
  }

  /** From all requests pending, each state repeats the one before or follows it by an atomic step. */
  ghost predicate AtomicRun(reqs: seq<Request>, run: seq<State>) {
    && run != []
    && |run[0].status| == |reqs|
    && (forall i :: 0 <= i < |reqs| ==> run[0].status[i] == Pending)
    && (forall k :: 0 < k < |run| ==> Follows(reqs, run[..k], run[k]))
  }

  ghost predicate Follows(reqs: seq<Request>, past: seq<State>, b: State) {
    past != [] &&
    var a := past[|past| - 1];
    b == a || exists i: nat :: AtomicStep(reqs, a, b, i)
  }
}

module EtcdRefinement {
  import opened Requests
  import opened Keys
  import opened EtcdMachine
  import opened EtcdInvariant
  import opened AtomicStore

  function AbsStore(kv: map<string, string>, names: set<string>): map<string, Entry> {
    map n | n in names && InstanceKey(n) in kv :: EntryOf(kv, n).value
  }

  function AbsStatus(p: Proc): Status {
    if Finished(p.pc) then Responded(p.outcome)
    else if p.pc.PutFile? then Written(p.pc.k)
    else Pending
  }

  function Abs(names: set<string>, s: Sys): State {
    State(AbsStore(s.env.kv, names), seq(|s.procs|, i requires 0 <= i < |s.procs| => AbsStatus(s.procs[i])))
  }

  lemma AbsLookup(kv: map<string, string>, names: set<string>, n: string)
    ensures Lookup(AbsStore(kv, names), n) == if n in names then EntryOf(kv, n) else None
  {
  }

  lemma SameLookups(a: map<string, Entry>, b: map<string, Entry>)
    requires forall n :: Lookup(a, n) == Lookup(b, n)
    ensures a == b
  {
    forall n ensures n in a <==> n in b {
      assert Lookup(a, n) == Lookup(b, n);
    }
    forall n | n in a ensures a[n] == b[n] {
      assert Lookup(a, n) == Lookup(b, n);
    }
  }

  lemma SetEntryLookup(store: map<string, Entry>, name: string, entry: Option<Entry>, n: string)
    ensures Lookup(SetEntry(store, name, entry), n) == if n == name then entry else Lookup(store, n)
  {
  }

  lemma AbsStoreChange(kv: map<string, string>, kv': map<string, string>, names: set<string>, name: string)
    requires name in names
    requires forall n :: n in names && n != name ==> EntryOf(kv', n) == EntryOf(kv, n)
    ensures AbsStore(kv', names) == SetEntry(AbsStore(kv, names), name, EntryOf(kv', name))
  {
    var a, b := AbsStore(kv', names), SetEntry(AbsStore(kv, names), name, EntryOf(kv', name));
    forall n ensures Lookup(a, n) == Lookup(b, n) {
      AbsLookup(kv, names, n);
      AbsLookup(kv', names, n);
      SetEntryLookup(AbsStore(kv, names), name, EntryOf(kv', name), n);
    }
    SameLookups(a, b);
  }

  lemma AbsStoreStep(names: set<string>, r: Request, p: Proc, kv: map<string, string>, c: Choice)
    requires CleanNames(names) && NoOrphanFiles(kv, names) && r.name in names
    ensures AbsStore(KvStep(r, p, kv, c), names) == SetEntry(AbsStore(kv, names), r.name, EntryStep(r, p, EntryOf(kv, r.name), c))
  {
    OwnEntry(r, p, kv, c);
    forall n | n in names && n != r.name ensures EntryOf(KvStep(r, p, kv, c), n) == EntryOf(kv, n) {
      OtherEntry(r, p, kv, c, n);
    }
    AbsStoreChange(kv, KvStep(r, p, kv, c), names, r.name);
  }

  /** What one step of the code is to the atomic store. */
  lemma LocalRefines(me: nat, r: Request, p: Proc, v: View, c: Choice, reply: Reply)
    requires ProcInv(me, r, p, v) && Possible(r, p, v, c) && Fits(r, p, v, c, reply)
    requires !p.pc.Done?
    ensures var st, st' := AbsStatus(p), AbsStatus(NextProc(r, p, v, c, reply));
            var entry' := EntryStep(r, p, v.entry, c);
            || (entry' == v.entry && st' == st)
            || Acts(r, v.entry, st, entry', st')
  {
    if !Critical(p.pc) {
      BeforeRefines(me, r, p, v, c, reply);
    } else if p.pc.Commit? {
      CommitRefines(me, r, p, v, c, reply);
    } else if p.pc.PutFile? {
      PutFileRefines(me, r, p, v, c, reply);
    } else {
      CheckRefines(me, r, p, v, c, reply);
    }
  }

  lemma BeforeRefines(me: nat, r: Request, p: Proc, v: View, c: Choice, reply: Reply)
    requires ProcInv(me, r, p, v) && Possible(r, p, v, c) && Fits(r, p, v, c, reply)
    requires !Critical(p.pc) && !p.pc.Done?
    ensures EntryStep(r, p, v.entry, c) == v.entry
    ensures var st, st' := AbsStatus(p), AbsStatus(NextProc(r, p, v, c, reply));
            st' == st || Acts(r, v.entry, st, v.entry, st')
  {
  }

  lemma CheckRefines(me: nat, r: Request, p: Proc, v: View, c: Choice, reply: Reply)
    requires ProcInv(me, r, p, v) && Possible(r, p, v, c) && Fits(r, p, v, c, reply)
    requires Critical(p.pc) && !p.pc.Commit? && !p.pc.PutFile?
    ensures EntryStep(r, p, v.entry, c) == v.entry
    ensures var st, st' := AbsStatus(p), AbsStatus(NextProc(r, p, v, c, reply));
            st' == st || Acts(r, v.entry, st, v.entry, st')
  {
  }

  lemma CommitRefines(me: nat, r: Request, p: Proc, v: View, c: Choice, reply: Reply)
    requires ProcInv(me, r, p, v) && Possible(r, p, v, c) && Fits(r, p, v, c, reply)
    requires p.pc.Commit?
    ensures Acts(r, v.entry, AbsStatus(p), EntryStep(r, p, v.entry, c), AbsStatus(NextProc(r, p, v, c, reply)))
  {
  }

  lemma PutFileRefines(me: nat, r: Request, p: Proc, v: View, c: Choice, reply: Reply)
    requires ProcInv(me, r, p, v) && Possible(r, p, v, c) && Fits(r, p, v, c, reply)
    requires p.pc.PutFile?
    ensures Acts(r, v.entry, AbsStatus(p), EntryStep(r, p, v.entry, c), AbsStatus(NextProc(r, p, v, c, reply)))
  {
  }

  lemma AbsStatusStep(names: set<string>, s: Sys, t: Sys, i: nat, q: Proc)
    requires i < |s.procs| && t.procs == s.procs[i := q]
    ensures Abs(names, t).status == Abs(names, s).status[i := AbsStatus(q)]
  {
  }

  lemma AtomicOrSame(reqs: seq<Request>, a: State, b: State, i: nat, entry: Option<Entry>, entry': Option<Entry>, st': Status)
    requires i < |reqs| == |a.status| && entry == Lookup(a.store, reqs[i].name)
    requires b == State(SetEntry(a.store, reqs[i].name, entry'), a.status[i := st'])
    requires (entry' == entry && st' == a.status[i]) || Acts(reqs[i], entry, a.status[i], entry', st')
    ensures b == a || AtomicStep(reqs, a, b, i)
  {
    SetEntryLookup(a.store, reqs[i].name, entry', reqs[i].name);
    SetSameEntry(a.store, reqs[i].name);
  }

  lemma ActAbs(reqs: seq<Request>, names: set<string>, s: Sys, i: nat, c: Choice)
    requires CleanRequests(reqs, names) && Inv(reqs, names, s) && Enabled(reqs, s, Act(i, c))
    ensures var r, p, a := reqs[i], s.procs[i], Abs(names, s);
            Abs(names, Next(reqs, s, Act(i, c)))
            == State(SetEntry(a.store, r.name, EntryStep(r, p, EntryOf(s.env.kv, r.name), c)),
                     a.status[i := AbsStatus(ProcStep(r, s.env, i, p, c))])
  {
    KvStepServed(i, reqs[i], s.procs[i], s.env, c);
    AbsStoreStep(names, reqs[i], s.procs[i], s.env.kv, c);
    AbsStatusStep(names, s, Next(reqs, s, Act(i, c)), i, ProcStep(reqs[i], s.env, i, s.procs[i], c));
  }

  lemma ActRefines(reqs: seq<Request>, names: set<string>, s: Sys, i: nat, c: Choice)
    requires CleanRequests(reqs, names) && Inv(reqs, names, s) && Enabled(reqs, s, Act(i, c))
    ensures var a, b := Abs(names, s), Abs(names, Next(reqs, s, Act(i, c)));
            b == a || AtomicStep(reqs, a, b, i)
  {
    var r, p := reqs[i], s.procs[i];
    ActAbs(reqs, names, s, i, c);
    AbsLookup(s.env.kv, names, r.name);
    assert ProcInv(i, r, p, ViewOf(s.env, r));
    var v, reply := StepSeen(i, r, p, s.env, c);
    LocalRefines(i, r, p, v, c, reply);
    AtomicOrSame(reqs, Abs(names, s), Abs(names, Next(reqs, s, Act(i, c))), i, EntryOf(s.env.kv, r.name),
                 EntryStep(r, p, EntryOf(s.env.kv, r.name), c), AbsStatus(ProcStep(r, s.env, i, p, c)));
  }

  lemma SetSameEntry(store: map<string, Entry>, name: string)
    ensures SetEntry(store, name, Lookup(store, name)) == store
  {
  }

  /** Every step of the machine is a step of the atomic store or invisible to it. */
  lemma StepRefines(reqs: seq<Request>, names: set<string>, s: Sys, a: Action)
    requires CleanRequests(reqs, names) && Inv(reqs, names, s) && Enabled(reqs, s, a)
    ensures var t := Next(reqs, s, a);
            Abs(names, t) == Abs(names, s) || exists i: nat :: AtomicStep(reqs, Abs(names, s), Abs(names, t), i)
  {
    match a
    case Act(i, c) => ActRefines(reqs, names, s, i, c);
    case Expire(_) => assert Abs(names, Next(reqs, s, a)).status == Abs(names, s).status;
  }

  /** The atomic states that a run passes through. */
  function Shadow(reqs: seq<Request>, names: set<string>, s: Sys, trace: seq<Action>): (run: seq<State>)
    requires |s.procs| == |reqs| && Legal(reqs, s, trace)
    ensures |run| == |trace| + 1 && run[|trace|] == Abs(names, Exec(reqs, s, trace))
  {
    (if trace == [] then [] else Shadow(reqs, names, s, trace[..|trace| - 1])) + [Abs(names, Exec(reqs, s, trace))]
  }

  lemma AtomicRunExtends(reqs: seq<Request>, run: seq<State>, b: State)
    requires AtomicRun(reqs, run) && Follows(reqs, run, b)
    ensures AtomicRun(reqs, run + [b])
  {
    forall k | 0 < k < |run| + 1 ensures Follows(reqs, (run + [b])[..k], (run + [b])[k]) {
      assert (run + [b])[..k] == run[..k];
      assert run[..|run|] == run;
    }
  }

  /** Every interleaving of any number of requests is a run of the atomic store. */
  lemma {:induction false} RunRefines(reqs: seq<Request>, names: set<string>, s: Sys, trace: seq<Action>)
    requires CleanRequests(reqs, names) && Initial(reqs, names, s) && Legal(reqs, s, trace)
    ensures AtomicRun(reqs, Shadow(reqs, names, s, trace))
    ensures Shadow(reqs, names, s, trace)[0].store == AbsStore(s.env.kv, names)
  {
    if trace != [] {
      var init := trace[..|trace| - 1];
      RunRefines(reqs, names, s, init);
      InvInitially(reqs, names, s);
      Reachable(reqs, names, s, init);
      StepRefines(reqs, names, Exec(reqs, s, init), trace[|trace| - 1]);
      AtomicRunExtends(reqs, Shadow(reqs, names, s, init), Abs(names, Exec(reqs, s, trace)));
    }
  }
}
