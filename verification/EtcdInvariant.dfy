/** What holds in every reachable state of the etcd machine. */
module EtcdInvariant {
  import opened Paths
  import opened Requests
  import opened Keys
  import opened EtcdMachine

  // -------------------------------------------------------------------- views

  /** What one request relies on of the environment: its mutex, its entry, the places of the disk it writes. */
  datatype View = View(holder: Option<nat>, entry: Option<Entry>, onDisk: map<Path, string>)

  function HolderIn(locks: map<string, nat>, r: Request): Option<nat> {
    var lock := LockName(InstanceKey(r.name));
    if lock in locks then Some(locks[lock]) else None
  }

  function OnDisk(disk: map<Place, string>, r: Request): map<Path, string> {
    map t | t in Targets(r) && Place(r.server.id, t) in disk :: disk[Place(r.server.id, t)]
  }

  function ViewOf(e: Env, r: Request): View {
    View(HolderIn(e.locks, r), EntryOf(e.kv, r.name), OnDisk(e.disk, r))
  }

  function EntryFiles(e: Option<Entry>): map<string, string> {
    if e.Some? then e.value.files else map[]
  }

  function EntryStep(r: Request, p: Proc, entry: Option<Entry>, c: Choice): Option<Entry> {
    if c.FailBefore? then entry else
    match p.pc
    case Commit => if r.kind.Apply? then Some(Entry(p.yaml, EntryFiles(entry))) else None
    case PutFile(k) => if k < |r.files| then AddFile(entry, r.files[k]) else entry
    case _ => entry
  }

  function AddFile(entry: Option<Entry>, file: File): Option<Entry> {
    if entry.Some? then Some(Entry(entry.value.yaml, entry.value.files[file.name := file.contents])) else None
  }

  /** The view after a step of its own request. */
  function ViewStep(me: nat, r: Request, p: Proc, v: View, c: Choice): View {
    if c.FailBefore? then v
    else
      View(
        if p.pc.Lock? then Some(me) else if LetsGo(r, p) && v.holder == Some(me) then None else v.holder,
        EntryStep(r, p, v.entry, c),
        match p.pc
        case WriteYaml => v.onDisk[ManifestPath(r.Dir()) := p.yaml]
        case WriteFile(k) =>
          if k < |r.files| then v.onDisk[FilePath(r.Dir(), r.files[k].name) := r.files[k].contents] else v.onDisk
        case _ => v.onDisk)
  }

  function EnvStep(reqs: seq<Request>, s: Sys, i: nat, c: Choice): Env
    requires i < |reqs| == |s.procs|
  {
    Serve(s.env, i, NextCall(reqs[i], s.procs[i]), c).0
  }

  /** The key space after a step of a request. */
  function KvStep(r: Request, p: Proc, kv: map<string, string>, c: Choice): map<string, string> {
    if c.FailBefore? then kv else
    match p.pc
    case Commit => if r.kind.Apply? then kv[InstanceKey(r.name) := p.yaml] else DeleteRange(kv, r.name)
    case PutFile(k) =>
      if k < |r.files| then kv[FileKey(InstanceKey(r.name), r.files[k].name) := r.files[k].contents] else kv
    case _ => kv
  }

  lemma KvStepServed(me: nat, r: Request, p: Proc, e: Env, c: Choice)
    ensures Serve(e, me, NextCall(r, p), c).0.kv == KvStep(r, p, e.kv, c)
  {
  }

  lemma OwnEntry(r: Request, p: Proc, kv: map<string, string>, c: Choice)
    requires '/' !in r.name
    requires FilesOf(kv, r.name) != map[] ==> InstanceKey(r.name) in kv
    ensures EntryOf(KvStep(r, p, kv, c), r.name) == EntryStep(r, p, EntryOf(kv, r.name), c)
  {
    if p.pc.Commit? && !c.FailBefore? {
      if r.kind.Apply? {
        OwnPutEntry(r, p, kv);
      } else {
        DeleteRangeEntry(kv, r.name, r.name);
      }
    } else if p.pc.PutFile? && !c.FailBefore? && p.pc.k < |r.files| {
      PutFileEntry(kv, r.name, r.files[p.pc.k].name, r.files[p.pc.k].contents, r.name);
    }
  }

  lemma OwnPutEntry(r: Request, p: Proc, kv: map<string, string>)
    requires '/' !in r.name
    requires FilesOf(kv, r.name) != map[] ==> InstanceKey(r.name) in kv
    ensures EntryOf(kv[InstanceKey(r.name) := p.yaml], r.name) == Some(Entry(p.yaml, EntryFiles(EntryOf(kv, r.name))))
  {
    PutInstanceEntry(kv, r.name, p.yaml, r.name);
    FilesOfEntry(kv, r.name);
  }

  lemma FilesOfEntry(kv: map<string, string>, name: string)
    requires FilesOf(kv, name) != map[] ==> InstanceKey(name) in kv
    ensures FilesOf(kv, name) == EntryFiles(EntryOf(kv, name))
  {
  }

  /** The held mutexes after a step of a request. */
  function LockStep(me: nat, r: Request, p: Proc, locks: map<string, nat>, c: Choice): map<string, nat> {
    var l := LockName(InstanceKey(r.name));
    if c.FailBefore? then locks
    else if p.pc.Lock? then locks[l := me]
    else if LetsGo(r, p) && l in locks && locks[l] == me then locks - {l}
    else locks
  }

  /** The step gives the request's mutex back: an unlock, a session close, or the range delete. */
  predicate LetsGo(r: Request, p: Proc) {
    || p.pc.LockFailed?
    || (p.pc.Commit? && r.kind.Delete?)
    || (p.pc.Cleaning? && p.cleanups != [] && p.cleanups[|p.cleanups| - 1] in {Unlock, CloseSession})
  }

  /** The disks after a step of a request. */
  function DiskStep(r: Request, p: Proc, disk: map<Place, string>, c: Choice): map<Place, string> {
    if c.FailBefore? then disk else
    match p.pc
    case WriteYaml => disk[ManifestPlace(r) := p.yaml]
    case WriteFile(k) => if k < |r.files| then disk[FilePlace(r, r.files[k].name) := r.files[k].contents] else disk
    case _ => disk
  }

  lemma LockStepServed(me: nat, r: Request, p: Proc, e: Env, c: Choice)
    ensures Serve(e, me, NextCall(r, p), c).0.locks == LockStep(me, r, p, e.locks, c)
  {
    if LetsGo(r, p) {
      ReleaseServed(me, r, p, e, c);
    }
  }

  lemma ReleaseServed(me: nat, r: Request, p: Proc, e: Env, c: Choice)
    requires LetsGo(r, p)
    ensures Serve(e, me, NextCall(r, p), c).0.locks
         == if c.FailBefore? then e.locks else FreeLock(e, me, InstanceKey(r.name)).locks
  {
  }

  lemma DiskStepServed(me: nat, r: Request, p: Proc, e: Env, c: Choice)
    ensures Serve(e, me, NextCall(r, p), c).0.disk == DiskStep(r, p, e.disk, c)
  {
    if !p.pc.WriteYaml? && !p.pc.WriteFile? {
      DiskUntouched(me, r, p, e, c);
    }
  }

  lemma DiskUntouched(me: nat, r: Request, p: Proc, e: Env, c: Choice)
    requires !p.pc.WriteYaml? && !p.pc.WriteFile?
    ensures Serve(e, me, NextCall(r, p), c).0.disk == e.disk
  {
  }

  lemma OwnLock(me: nat, r: Request, p: Proc, locks: map<string, nat>, v: View, c: Choice)
    requires v.holder == HolderIn(locks, r)
    ensures HolderIn(LockStep(me, r, p, locks, c), r) == ViewStep(me, r, p, v, c).holder
  {
  }

  lemma OwnDisk(me: nat, r: Request, p: Proc, disk: map<Place, string>, v: View, c: Choice)
    requires v.onDisk == OnDisk(disk, r)
    ensures OnDisk(DiskStep(r, p, disk, c), r) == ViewStep(me, r, p, v, c).onDisk
  {
    if p.pc.WriteFile? && p.pc.k < |r.files| {
      assert r.files[p.pc.k] in r.files;
    }
  }

  lemma OwnView(me: nat, r: Request, p: Proc, e: Env, c: Choice)
    requires '/' !in r.name
    requires FilesOf(e.kv, r.name) != map[] ==> InstanceKey(r.name) in e.kv
    ensures ViewOf(Serve(e, me, NextCall(r, p), c).0, r) == ViewStep(me, r, p, ViewOf(e, r), c)
  {
    KvStepServed(me, r, p, e, c);
    OwnEntry(r, p, e.kv, c);
    LockStepServed(me, r, p, e, c);
    OwnLock(me, r, p, e.locks, ViewOf(e, r), c);
    DiskStepServed(me, r, p, e, c);
    OwnDisk(me, r, p, e.disk, ViewOf(e, r), c);
  }

  /** A step leaves every entry of another clean name as it is. */
  lemma OtherEntry(r: Request, p: Proc, kv: map<string, string>, c: Choice, n: string)
    requires '/' !in r.name && '/' !in n && r.name != n && !(r.name <= n)
    ensures EntryOf(KvStep(r, p, kv, c), n) == EntryOf(kv, n)
    ensures FilesOf(KvStep(r, p, kv, c), n) == FilesOf(kv, n)
  {
    if p.pc.Commit? && !c.FailBefore? && r.kind.Apply? {
      PutInstanceEntry(kv, r.name, p.yaml, n);
    } else if p.pc.Commit? && !c.FailBefore? {
      DeleteRangeEntry(kv, r.name, n);
    } else if p.pc.PutFile? && !c.FailBefore? && p.pc.k < |r.files| {
      OtherFileEntry(kv, r.name, r.files[p.pc.k], n);
    }
  }

  lemma OtherFileEntry(kv: map<string, string>, name: string, file: File, n: string)
    requires '/' !in name && '/' !in n && name != n
    ensures EntryOf(kv[FileKey(InstanceKey(name), file.name) := file.contents], n) == EntryOf(kv, n)
    ensures FilesOf(kv[FileKey(InstanceKey(name), file.name) := file.contents], n) == FilesOf(kv, n)
  {
    PutFileEntry(kv, name, file.name, file.contents, n);
  }

  lemma OtherLock(me: nat, r: Request, p: Proc, locks: map<string, nat>, c: Choice, other: Request)
    requires r.name != other.name
    ensures HolderIn(LockStep(me, r, p, locks, c), other) == HolderIn(locks, other)
  {
    LockNameInjective(r.name, other.name);
  }

  lemma OtherDisk(r: Request, p: Proc, disk: map<Place, string>, c: Choice, other: Request)
    requires r.name != other.name && Apart(r, other)
    ensures OnDisk(DiskStep(r, p, disk, c), other) == OnDisk(disk, other)
  {
    if p.pc.WriteFile? && p.pc.k < |r.files| {
      assert FilePath(r.Dir(), r.files[p.pc.k].name) in Targets(r);
    } else if p.pc.WriteYaml? {
      assert ManifestPath(r.Dir()) in Targets(r);
    }
  }

  /** A step never touches the view of a request with another name. */
  lemma OtherNameView(me: nat, r: Request, p: Proc, e: Env, c: Choice, other: Request)
    requires '/' !in r.name && '/' !in other.name && r.name != other.name && !(r.name <= other.name)
    requires Apart(r, other)
    ensures ViewOf(Serve(e, me, NextCall(r, p), c).0, other) == ViewOf(e, other)
  {
    KvStepServed(me, r, p, e, c);
    OtherEntry(r, p, e.kv, c, other.name);
    LockStepServed(me, r, p, e, c);
    OtherLock(me, r, p, e.locks, c, other);
    DiskStepServed(me, r, p, e, c);
    OtherDisk(r, p, e.disk, c, other);
  }

  // ------------------------------------------------------- one request's claims

  /** Control points between acquiring the mutex and the end of the commit. */
  predicate Critical(pc: Pc) {
    pc.CheckExists? || pc.CheckValue? || pc.Load? || pc.WriteYaml? || pc.WriteFile? || pc.Tool? || pc.Commit? || pc.PutFile?
  }

  /** Control points at which the stale-read check is behind and the commit ahead. */
  predicate Checked(pc: Pc) {
    pc.Load? || pc.WriteYaml? || pc.WriteFile? || pc.Tool? || pc.Commit?
  }

  /** The first k files put over stored ones, later duplicates winning. */
  function AddFiles(stored: map<string, string>, files: seq<File>, k: nat): map<string, string>
    requires k <= |files|
  {
    if k == 0 then stored else AddFiles(stored, files, k - 1)[files[k - 1].name := files[k - 1].contents]
  }

  const ALL_RELEASES := [CloseClient, CancelContext, CloseSession, Unlock]

  predicate CleanupsMatch(p: Proc) {
    match p.pc
    case Start => p.cleanups == []
    case Client => p.cleanups == []
    case Exists => p.cleanups == [CloseClient]
    case Lock => p.cleanups == [CloseClient]
    case LockFailed => p.cleanups == [CloseClient]
    case Cleaning => p.cleanups <= ALL_RELEASES
    case Done => p.cleanups == []
    case _ => p.cleanups == ALL_RELEASES
  }

  predicate Finished(pc: Pc) {
    pc.Cleaning? || pc.Done?
  }

  predicate Includes(a: map<Path, string>, b: map<Path, string>) {
    forall t :: t in b ==> t in a && a[t] == b[t]
  }

  /** The directory contents the tool accepted hold what the request wrote there. */
  predicate Accepted(r: Request, p: Proc) {
    p.validated.Some? && SeenBelow(r.Dir(), p.validated.value, Writes(r.Dir(), p.yaml, r.files, |r.files|))
  }

  /** A tool has accepted the directory just when a switch asks for it: kubectl, or kustomize for an Apply. */
  predicate ToolLooked(r: Request, p: Proc) {
    && (p.validated.Some? <==> r.server.kubectl || (r.kind.Apply? && r.server.kustomize))
    && (p.validated.Some? ==> Accepted(r, p))
  }

  predicate SeenBelow(dir: Path, seen: map<Path, string>, written: map<Path, string>) {
    forall t :: t in written && dir < t ==> t in seen && seen[t] == written[t]
  }

  /** What a commit whose first write took effect has established for good. */
  predicate CommitFacts(r: Request, p: Proc) {
    && (r.oldInstance.Some? ==> YamlOf(p.base) == Some(r.oldInstance.value.yaml))
    && (r.kind.Delete? ==> YamlOf(p.base) == Some(p.yaml))
    && ToolLooked(r, p)
  }

  predicate OutcomeFacts(r: Request, p: Proc) {
    && (!p.pc.Start? && !p.outcome.NameMismatch? ==> NamesAgree(r))
    && (p.outcome.NameMismatch? ==> !NamesAgree(r))
    && (p.pc.Exists? ==> r.kind.Delete?)
    && (!Finished(p.pc) ==> p.outcome.Ok?)
    && (Finished(p.pc) && p.outcome.Ok? ==> p.committed)
    && (p.committed ==> p.pc.PutFile? || Finished(p.pc))
    && (p.committed ==> p.outcome.Ok? || p.outcome.Failed?)
    && (p.committed ==> CommitFacts(r, p))
    && (p.outcome.UnexpectedCount? ==> r.kind.Delete? && r.oldInstance.None?)
    && (r.kind.Apply? ==> p.yaml == r.yaml)
  }

  predicate ViewFacts(me: nat, r: Request, p: Proc, v: View) {
    && v.holder == Some(me)
    && (p.pc.CheckExists? || p.pc.CheckValue? ==> r.oldInstance.Some?)
    && (p.pc.Load? ==> r.kind.Delete?)
    && (p.pc.CheckValue? ==> v.entry.Some?)
    && (Checked(p.pc) && r.oldInstance.Some? ==> YamlOf(v.entry) == Some(r.oldInstance.value.yaml))
    && (Checked(p.pc) && !p.pc.Load? && r.kind.Delete? ==> YamlOf(v.entry) == Some(p.yaml))
    && (p.pc.WriteFile? ==> p.pc.k <= |r.files| && Includes(v.onDisk, Writes(r.Dir(), p.yaml, r.files, p.pc.k)))
    && (p.pc.Tool? ==> Includes(v.onDisk, Writes(r.Dir(), p.yaml, r.files, |r.files|)))
    && (p.pc.Commit? ==> ToolLooked(r, p))
    && (p.pc.PutFile? ==>
          && r.kind.Apply? && p.committed && p.pc.k <= |r.files|
          && v.entry == Some(Entry(r.yaml, AddFiles(EntryFiles(p.base), r.files, p.pc.k))))
  }

  /** Everything claimed of one request; outside its critical section it claims nothing of the environment. */
  predicate ProcInv(me: nat, r: Request, p: Proc, v: View) {
    CleanupsMatch(p) && OutcomeFacts(r, p) && (Critical(p.pc) ==> ViewFacts(me, r, p, v))
  }

  // ----------------------------------------------------------------- own steps

  function ProcStep(r: Request, e: Env, me: nat, p: Proc, c: Choice): Proc {
    Record(r, e, p, c, Resume(r, p, Serve(e, me, NextCall(r, p), c).1))
  }

  /** The same step as far as the view determines it. */
  function NextProc(r: Request, p: Proc, v: View, c: Choice, reply: Reply): Proc {
    var q := Resume(r, p, reply);
    if p.pc.Commit? && !c.FailBefore? then q.(committed := true, base := v.entry) else q
  }

  predicate Possible(r: Request, p: Proc, v: View, c: Choice) {
    match p.pc
    case Lock => c.FailBefore? || v.holder.None?
    case Start => c.Succeed?
    case WriteFile(k) => k < |r.files| || c.Succeed?
    case Tool => r.RunsTool() || c.Succeed?
    case PutFile(k) => k < |r.files| || c.Succeed?
    case Cleaning => (p.cleanups == [] || p.cleanups[|p.cleanups| - 1].CancelContext?) ==> c.Succeed?
    case _ => true
  }

  /** The answers that a view allows; a tool sees at least what the request has on disk below its directory. */
  predicate Fits(r: Request, p: Proc, v: View, c: Choice, reply: Reply) {
    if !c.Succeed? then reply == Error
    else
      match p.pc
      case Exists => reply == Present(v.entry.Some?)
      case CheckExists => reply == Present(v.entry.Some?)
      case CheckValue => reply == Fetched(YamlOf(v.entry))
      case Load => reply == Fetched(YamlOf(v.entry))
      case Tool => if r.RunsTool() then reply.Built? && SeenBelow(r.Dir(), reply.input, v.onDisk) else reply == Ack
      case _ => reply == Ack
  }

  lemma PossibleIsServed(r: Request, p: Proc, e: Env, v: View, c: Choice)
    requires v.holder == HolderIn(e.locks, r) && !p.pc.Done?
    ensures CanServe(e, NextCall(r, p), c) <==> Possible(r, p, v, c)
  {
  }

  lemma ReplySeen(me: nat, r: Request, p: Proc, e: Env, v: View, c: Choice)
    requires v.entry == EntryOf(e.kv, r.name) && v.onDisk == OnDisk(e.disk, r)
    ensures Fits(r, p, v, c, Serve(e, me, NextCall(r, p), c).1)
  {
    if p.pc.Tool? {
      ToolReplySeen(me, r, p, e, v, c);
    }
  }

  lemma ToolReplySeen(me: nat, r: Request, p: Proc, e: Env, v: View, c: Choice)
    requires p.pc.Tool? && v.onDisk == OnDisk(e.disk, r)
    ensures Fits(r, p, v, c, Serve(e, me, NextCall(r, p), c).1)
  {
    ToolSees(e.disk, r, v.onDisk);
  }

  /** What a request has on disk below its directory is among what a tool finds there. */
  lemma ToolSees(disk: map<Place, string>, r: Request, onDisk: map<Path, string>)
    requires onDisk == OnDisk(disk, r)
    ensures SeenBelow(r.Dir(), Below(disk, r.server.id, r.Dir()), onDisk)
  {
    forall t | t in onDisk && r.Dir() < t
      ensures t in Below(disk, r.server.id, r.Dir()) && Below(disk, r.server.id, r.Dir())[t] == onDisk[t]
    {
      assert Place(r.server.id, t) in disk;
    }
  }

  /** A step of a request, seen through its view. */
  lemma StepSeen(me: nat, r: Request, p: Proc, e: Env, c: Choice) returns (v: View, reply: Reply)
    requires !p.pc.Done?
    ensures v == ViewOf(e, r) && reply == Serve(e, me, NextCall(r, p), c).1
    ensures CanServe(e, NextCall(r, p), c) <==> Possible(r, p, v, c)
    ensures Fits(r, p, v, c, reply)
    ensures ProcStep(r, e, me, p, c) == NextProc(r, p, v, c, reply)
  {
    v, reply := ViewOf(e, r), Serve(e, me, NextCall(r, p), c).1;
    PossibleIsServed(r, p, e, v, c);
    ReplySeen(me, r, p, e, v, c);
  }

  lemma OwnBefore(me: nat, r: Request, p: Proc, v: View, c: Choice, reply: Reply)
    requires ProcInv(me, r, p, v) && Possible(r, p, v, c) && Fits(r, p, v, c, reply)
    requires !Critical(p.pc) && !p.pc.Done?
    ensures ProcInv(me, r, NextProc(r, p, v, c, reply), ViewStep(me, r, p, v, c))
  {
  }

  lemma OwnChecking(me: nat, r: Request, p: Proc, v: View, c: Choice, reply: Reply)
    requires ProcInv(me, r, p, v) && Possible(r, p, v, c) && Fits(r, p, v, c, reply)
    requires p.pc.CheckExists? || p.pc.CheckValue? || p.pc.Load?
    ensures ProcInv(me, r, NextProc(r, p, v, c, reply), ViewStep(me, r, p, v, c))
  {
  }

  lemma OwnWriting(me: nat, r: Request, p: Proc, v: View, c: Choice, reply: Reply)
    requires ProcInv(me, r, p, v) && Possible(r, p, v, c) && Fits(r, p, v, c, reply)
    requires p.pc.WriteYaml? || p.pc.WriteFile?
    ensures ProcInv(me, r, NextProc(r, p, v, c, reply), ViewStep(me, r, p, v, c))
  {
  }

  lemma OwnTool(me: nat, r: Request, p: Proc, v: View, c: Choice, reply: Reply)
    requires ProcInv(me, r, p, v) && Possible(r, p, v, c) && Fits(r, p, v, c, reply)
    requires p.pc.Tool?
    ensures ProcInv(me, r, NextProc(r, p, v, c, reply), ViewStep(me, r, p, v, c))
  {
  }

  lemma OwnCommitting(me: nat, r: Request, p: Proc, v: View, c: Choice, reply: Reply)
    requires ProcInv(me, r, p, v) && Possible(r, p, v, c) && Fits(r, p, v, c, reply)
    requires p.pc.Commit?
    ensures ProcInv(me, r, NextProc(r, p, v, c, reply), ViewStep(me, r, p, v, c))
  {
  }

  lemma OwnPutting(me: nat, r: Request, p: Proc, v: View, c: Choice, reply: Reply)
    requires ProcInv(me, r, p, v) && Possible(r, p, v, c) && Fits(r, p, v, c, reply)
    requires p.pc.PutFile?
    ensures ProcInv(me, r, NextProc(r, p, v, c, reply), ViewStep(me, r, p, v, c))
  {
  }

  lemma OwnStepSeen(me: nat, r: Request, p: Proc, v: View, c: Choice, reply: Reply)
    requires ProcInv(me, r, p, v) && Possible(r, p, v, c) && Fits(r, p, v, c, reply)
    requires !p.pc.Done?
    ensures ProcInv(me, r, NextProc(r, p, v, c, reply), ViewStep(me, r, p, v, c))
  {
    if !Critical(p.pc) {
      OwnBefore(me, r, p, v, c, reply);
    } else if p.pc.CheckExists? || p.pc.CheckValue? || p.pc.Load? {
      OwnChecking(me, r, p, v, c, reply);
    } else if p.pc.Commit? {
      OwnCommitting(me, r, p, v, c, reply);
    } else if p.pc.PutFile? {
      OwnPutting(me, r, p, v, c, reply);
    } else if p.pc.Tool? {
      OwnTool(me, r, p, v, c, reply);
    } else {
      OwnWriting(me, r, p, v, c, reply);
    }
  }

  lemma OwnStep(me: nat, r: Request, p: Proc, e: Env, c: Choice)
    requires ProcInv(me, r, p, ViewOf(e, r)) && CanServe(e, NextCall(r, p), c) && !p.pc.Done?
    ensures ProcInv(me, r, ProcStep(r, e, me, p, c), ViewStep(me, r, p, ViewOf(e, r), c))
  {
    var v, reply := StepSeen(me, r, p, e, c);
    OwnStepSeen(me, r, p, v, c, reply);
  }

  // -------------------------------------------------------------- other steps

  /** While someone else is in the critical section of a name, a step under that name changes nothing at all. */
  lemma LockedOut(me: nat, r: Request, p: Proc, e: Env, c: Choice, holder: nat)
    requires ProcInv(me, r, p, ViewOf(e, r)) && CanServe(e, NextCall(r, p), c)
    requires ViewOf(e, r).holder == Some(holder) && holder != me
    ensures Serve(e, me, NextCall(r, p), c).0 == e
  {
    assert !Critical(p.pc);
  }

  // ---------------------------------------------------------- the whole machine

  predicate PastLock(pc: Pc) {
    pc.LockFailed? || Critical(pc) || Finished(pc)
  }

  /** A mutex belongs to one request of its own name that has got past the lock call. */
  ghost predicate LocksMatch(reqs: seq<Request>, s: Sys)
    requires |s.procs| == |reqs|
  {
    forall l :: l in s.env.locks ==>
      && s.env.locks[l] < |reqs|
      && l == LockName(InstanceKey(reqs[s.env.locks[l]].name))
      && PastLock(s.procs[s.env.locks[l]].pc)
  }

  ghost predicate ProcsMatch(reqs: seq<Request>, s: Sys)
    requires |s.procs| == |reqs|
  {
    forall i {:trigger ProcInv(i, reqs[i], s.procs[i], ViewOf(s.env, reqs[i]))} :: 0 <= i < |reqs| ==>
      ProcInv(i, reqs[i], s.procs[i], ViewOf(s.env, reqs[i]))
  }

  ghost predicate Inv(reqs: seq<Request>, names: set<string>, s: Sys) {
    && |s.procs| == |reqs|
    && NoOrphanFiles(s.env.kv, names)
    && LocksMatch(reqs, s)
    && ProcsMatch(reqs, s)
  }

  lemma InvInitially(reqs: seq<Request>, names: set<string>, s: Sys)
    requires Initial(reqs, names, s)
    ensures Inv(reqs, names, s)
  {
    forall i | 0 <= i < |reqs| ensures ProcInv(i, reqs[i], s.procs[i], ViewOf(s.env, reqs[i])) {
      NewProcInv(i, reqs[i], s.procs[i], ViewOf(s.env, reqs[i]));
    }
  }

  lemma NewProcInv(me: nat, r: Request, p: Proc, v: View)
    requires p == NewProc(r)
    ensures ProcInv(me, r, p, v)
  {
  }

  /** No step leaves a file key behind whose instance key is gone. */
  lemma NoOrphansStep(reqs: seq<Request>, names: set<string>, s: Sys, i: nat, c: Choice)
    requires CleanRequests(reqs, names) && Inv(reqs, names, s) && Enabled(reqs, s, Act(i, c))
    ensures NoOrphanFiles(EnvStep(reqs, s, i, c).kv, names)
  {
    var r, p, kv := reqs[i], s.procs[i], s.env.kv;
    KvStepServed(i, r, p, s.env, c);
    assert ProcInv(i, r, p, ViewOf(s.env, r));
    forall n | n in names && FilesOf(KvStep(r, p, kv, c), n) != map[]
      ensures InstanceKey(n) in KvStep(r, p, kv, c)
    {
      if n == r.name {
        OwnKeepsFiles(i, r, p, s.env, c);
      } else {
        OtherEntry(r, p, kv, c, n);
        assert EntryOf(kv, n).Some?;
      }
    }
  }

  lemma OwnKeepsFiles(me: nat, r: Request, p: Proc, e: Env, c: Choice)
    requires '/' !in r.name && ProcInv(me, r, p, ViewOf(e, r))
    requires FilesOf(e.kv, r.name) != map[] ==> InstanceKey(r.name) in e.kv
    ensures FilesOf(KvStep(r, p, e.kv, c), r.name) != map[] ==> InstanceKey(r.name) in KvStep(r, p, e.kv, c)
  {
    if p.pc.Commit? && !c.FailBefore? {
      DeleteRangeEntry(e.kv, r.name, r.name);
    }
  }

  lemma LocksStep(reqs: seq<Request>, names: set<string>, s: Sys, i: nat, c: Choice)
    requires CleanRequests(reqs, names) && Inv(reqs, names, s) && Enabled(reqs, s, Act(i, c))
    ensures LocksMatch(reqs, Next(reqs, s, Act(i, c)))
  {
    var r, p := reqs[i], s.procs[i];
    var t := Next(reqs, s, Act(i, c));
    forall l | l in t.env.locks
      ensures t.env.locks[l] < |reqs| && l == LockName(InstanceKey(reqs[t.env.locks[l]].name))
      ensures PastLock(t.procs[t.env.locks[l]].pc)
    {
      LocksOnlyOwn(i, r, p, s.env, c, l);
      if t.env.locks[l] == i {
        LockPcsKept(i, r, p, s.env, c);
      }
    }
  }

  lemma LocksOnlyOwn(me: nat, r: Request, p: Proc, e: Env, c: Choice, l: string)
    requires l in Serve(e, me, NextCall(r, p), c).0.locks
    ensures var locks := Serve(e, me, NextCall(r, p), c).0.locks;
            || (l in e.locks && locks[l] == e.locks[l])
            || (p.pc.Lock? && l == LockName(InstanceKey(r.name)) && locks[l] == me)
  {
  }

  lemma LockPcsKept(me: nat, r: Request, p: Proc, e: Env, c: Choice)
    requires p.pc.Lock? || PastLock(p.pc)
    ensures PastLock(ProcStep(r, e, me, p, c).pc)
  {
    PastLockKept(r, p, Serve(e, me, NextCall(r, p), c).1);
  }

  lemma PastLockKept(r: Request, p: Proc, reply: Reply)
    requires p.pc.Lock? || PastLock(p.pc)
    ensures PastLock(Resume(r, p, reply).pc)
  {
  }

  lemma ProcsStep(reqs: seq<Request>, names: set<string>, s: Sys, i: nat, c: Choice)
    requires CleanRequests(reqs, names) && Inv(reqs, names, s) && Enabled(reqs, s, Act(i, c))
    ensures ProcsMatch(reqs, Next(reqs, s, Act(i, c)))
  {
    var t := Next(reqs, s, Act(i, c));
    forall j | 0 <= j < |reqs|
      ensures ProcInv(j, reqs[j], t.procs[j], ViewOf(t.env, reqs[j]))
    {
      assert ProcInv(j, reqs[j], s.procs[j], ViewOf(s.env, reqs[j]));
      if j == i {
        OwnStep(i, reqs[i], s.procs[i], s.env, c);
        OwnView(i, reqs[i], s.procs[i], s.env, c);
      } else {
        assert Apart(reqs[i], reqs[j]);
        OtherStep(i, reqs[i], s.procs[i], s.env, c, j, reqs[j], s.procs[j]);
      }
    }
  }

  /** What is claimed of one request survives the step of another. */
  lemma OtherStep(i: nat, r: Request, p: Proc, e: Env, c: Choice, j: nat, other: Request, q: Proc)
    requires ProcInv(i, r, p, ViewOf(e, r)) && CanServe(e, NextCall(r, p), c) && i != j
    requires ProcInv(j, other, q, ViewOf(e, other)) && Apart(r, other)
    requires '/' !in r.name && '/' !in other.name && (r.name <= other.name ==> r.name == other.name)
    ensures ProcInv(j, other, q, ViewOf(Serve(e, i, NextCall(r, p), c).0, other))
  {
    if !Critical(q.pc) {
      ClaimsNothing(j, other, q, ViewOf(e, other), ViewOf(Serve(e, i, NextCall(r, p), c).0, other));
    } else if r.name == other.name {
      assert ViewOf(e, r).holder == ViewOf(e, other).holder == Some(j);
      LockedOut(i, r, p, e, c, j);
    } else {
      OtherNameView(i, r, p, e, c, other);
    }
  }

  lemma InvAct(reqs: seq<Request>, names: set<string>, s: Sys, i: nat, c: Choice)
    requires CleanRequests(reqs, names) && Inv(reqs, names, s) && Enabled(reqs, s, Act(i, c))
    ensures Inv(reqs, names, Next(reqs, s, Act(i, c)))
  {
    NoOrphansStep(reqs, names, s, i, c);
    LocksStep(reqs, names, s, i, c);
    ProcsStep(reqs, names, s, i, c);
  }

  /** A lease runs out only after its request is done, so nobody in a critical section loses a mutex. */
  lemma InvExpire(reqs: seq<Request>, names: set<string>, s: Sys, l: string)
    requires CleanRequests(reqs, names) && Inv(reqs, names, s) && Enabled(reqs, s, Expire(l))
    ensures Inv(reqs, names, Next(reqs, s, Expire(l)))
  {
    var t := Next(reqs, s, Expire(l));
    forall j | 0 <= j < |reqs|
      ensures ProcInv(j, reqs[j], t.procs[j], ViewOf(t.env, reqs[j]))
    {
      assert ProcInv(j, reqs[j], s.procs[j], ViewOf(s.env, reqs[j]));
      if Critical(s.procs[j].pc) {
        HolderNotExpired(reqs, s, j, l);
        ExpireView(reqs[j], s.env, l);
      } else {
        ClaimsNothing(j, reqs[j], s.procs[j], ViewOf(s.env, reqs[j]), ViewOf(t.env, reqs[j]));
      }
    }
  }

  lemma HolderNotExpired(reqs: seq<Request>, s: Sys, j: nat, l: string)
    requires |reqs| == |s.procs| && j < |reqs| && Critical(s.procs[j].pc)
    requires ViewOf(s.env, reqs[j]).holder == Some(j) && Enabled(reqs, s, Expire(l))
    ensures LockName(InstanceKey(reqs[j].name)) != l
  {
  }

  lemma ClaimsNothing(me: nat, r: Request, p: Proc, v: View, w: View)
    requires ProcInv(me, r, p, v) && !Critical(p.pc)
    ensures ProcInv(me, r, p, w)
  {
  }

  lemma ExpireView(r: Request, e: Env, l: string)
    ensures LockName(InstanceKey(r.name)) != l ==> ViewOf(e.(locks := e.locks - {l}), r) == ViewOf(e, r)
  {
  }

  lemma InvStep(reqs: seq<Request>, names: set<string>, s: Sys, a: Action)
    requires CleanRequests(reqs, names) && Inv(reqs, names, s) && Enabled(reqs, s, a)
    ensures Inv(reqs, names, Next(reqs, s, a))
  {
    match a
    case Act(i, c) => InvAct(reqs, names, s, i, c);
    case Expire(l) => InvExpire(reqs, names, s, l);
  }

  /** The invariant holds after every run. */
  lemma {:induction false} Reachable(reqs: seq<Request>, names: set<string>, s: Sys, trace: seq<Action>)
    requires CleanRequests(reqs, names) && Inv(reqs, names, s) && Legal(reqs, s, trace)
    ensures Inv(reqs, names, Exec(reqs, s, trace))
  {
    if trace != [] {
      var init := trace[..|trace| - 1];
      Reachable(reqs, names, s, init);
      InvStep(reqs, names, Exec(reqs, s, init), trace[|trace| - 1]);
    }
  }
}
