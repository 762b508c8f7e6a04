/**
 * Any number of Apply and Delete requests, each running the etcd adapter's code one call at a
 * time against a shared store, a shared lock table and the disks of the servers.
 *
 * A request is a program: NextCall says which call its code makes, Serve what the call does to
 * the environment, Resume how the code goes on with the reply.
 */
module EtcdMachine {
  import opened Paths
  import opened Requests
  import opened Keys

  // ------------------------------------------------------------- environment

  /** A path on the disk of one server. */
  datatype Place = Place(server: nat, path: Path)

  /** The etcd key space, the held mutexes by mutex name, and the disks. */
  datatype Env = Env(kv: map<string, string>, locks: map<string, nat>, disk: map<Place, string>)

  /** The deferred releases that a request registers, in the order it registers them. */
  datatype Release = CloseClient | CancelContext | CloseSession | Unlock

  datatype Call =
    | Internal
    | NewClient
    | AcquireLock(key: string)
    | KeyExists(key: string)
    | Get(key: string)
    | WriteLocal(place: Place, contents: string)
    | RunTool(server: nat, dir: Path)
    | Put(key: string, value: string)
    | DeletePrefix(name: string)
    | RunRelease(release: Release, key: string)

  datatype Reply = Ack | Present(present: bool) | Fetched(value: Option<string>) | Built(input: map<Path, string>) | Error

  /** A call succeeds, fails without a trace, or fails after it took effect. */
  datatype Choice = Succeed | FailBefore | FailAfter

  predicate LockFree(e: Env, key: string) {
    LockName(key) !in e.locks
  }

  function FreeLock(e: Env, me: nat, key: string): Env {
    if LockName(key) in e.locks && e.locks[LockName(key)] == me
    then e.(locks := e.locks - {LockName(key)}) else e
  }

  /** What a call does when it takes effect. The range delete also removes the deleter's own lock key. */
  function Effect(e: Env, me: nat, call: Call): Env {
    match call
    case AcquireLock(key) => e.(locks := e.locks[LockName(key) := me])
    case WriteLocal(place, contents) => e.(disk := e.disk[place := contents])
    case Put(key, value) => e.(kv := e.kv[key := value])
    case DeletePrefix(name) => FreeLock(e.(kv := DeleteRange(e.kv, name)), me, InstanceKey(name))
    case RunRelease(release, key) =>
      if release.Unlock? || release.CloseSession? then FreeLock(e, me, key) else e
    case _ => e
  }

  /** All files below a directory of one server, by path. */
  function Below(disk: map<Place, string>, server: nat, dir: Path): map<Path, string> {
    map place | place in disk && place.server == server && dir < place.path :: place.path := disk[place]
  }

  function Answer(e: Env, call: Call): Reply {
    match call
    case KeyExists(key) => Present(key in e.kv)
    case Get(key) => Fetched(if key in e.kv then Some(e.kv[key]) else None)
    case RunTool(server, dir) => Built(Below(e.disk, server, dir))
    case _ => Ack
  }

  function Serve(e: Env, me: nat, call: Call, c: Choice): (Env, Reply) {
    match c
    case Succeed => (Effect(e, me, call), Answer(e, call))
    case FailBefore => (e, Error)
    case FailAfter => (Effect(e, me, call), Error)
  }

  /** A mutex is acquired only while it is free; steps without a call and cancel functions cannot fail. */
  predicate CanServe(e: Env, call: Call, c: Choice) {
    match call
    case Internal => c.Succeed?
    case AcquireLock(key) => c.FailBefore? || LockFree(e, key)
    case RunRelease(release, _) => release.CancelContext? ==> c.Succeed?
    case _ => true
  }

  // ------------------------------------------------------------------ program

  datatype Pc =
    | Start
    | Client
    | Exists
    | Lock
    | LockFailed
    | CheckExists
    | CheckValue
    | Load
    | WriteYaml
    | WriteFile(k: nat)
    | Tool
    | Commit
    | PutFile(k: nat)
    | Cleaning
    | Done

  datatype Outcome = Ok | NameMismatch | NoKey | InstanceNoExist | OldDiffers | UnexpectedCount | ToolRejected | Failed

  /**
   * The control point and variables of one request. The fields validated, committed and base
   * are history: the directory contents the tool step accepted, whether the commit's first write
   * took effect, and the entry that write found.
   */
  datatype Proc = Proc(
    pc: Pc,
    yaml: string,
    cleanups: seq<Release>,
    outcome: Outcome,
    validated: Option<map<Path, string>>,
    committed: bool,
    base: Option<Entry>)

  function NewProc(r: Request): Proc {
    Proc(Start, r.yaml, [], Ok, None, false, None)
  }

  function ManifestPlace(r: Request): Place {
    Place(r.server.id, ManifestPath(r.Dir()))
  }

  function FilePlace(r: Request, file: string): Place {
    Place(r.server.id, FilePath(r.Dir(), file))
  }

  function NextCall(r: Request, p: Proc): Call {
    var key := InstanceKey(r.name);
    match p.pc
    case Start => Internal
    case Client => NewClient
    case Exists => KeyExists(key)
    case Lock => AcquireLock(key)
    case LockFailed => RunRelease(CloseSession, key)
    case CheckExists => KeyExists(key)
    case CheckValue => Get(key)
    case Load => Get(key)
    case WriteYaml => WriteLocal(ManifestPlace(r), p.yaml)
    case WriteFile(k) =>
      if k < |r.files| then WriteLocal(FilePlace(r, r.files[k].name), r.files[k].contents) else Internal
    case Tool => if r.RunsTool() then RunTool(r.server.id, r.Dir()) else Internal
    case Commit => if r.kind.Apply? then Put(key, p.yaml) else DeletePrefix(r.name)
    case PutFile(k) => if k < |r.files| then Put(FileKey(key, r.files[k].name), r.files[k].contents) else Internal
    case Cleaning => if p.cleanups == [] then Internal else RunRelease(p.cleanups[|p.cleanups| - 1], key)
    case Done => Internal
  }

  function Finish(p: Proc, outcome: Outcome): Proc {
    p.(pc := Cleaning, outcome := outcome)
  }

  /** Where the code goes once the stale-read check is behind it. */
  function AfterCheck(r: Request, p: Proc): Proc {
    p.(pc := if r.kind.Delete? then Load else WriteYaml)
  }

  function Resume(r: Request, p: Proc, reply: Reply): Proc {
    if reply.Error? && p.pc.Lock? then p.(pc := LockFailed)
    else if reply.Error? && !p.pc.Cleaning? then Finish(p, if p.pc.Tool? then ToolRejected else Failed) else
    match p.pc
    case Start =>
      if r.oldInstance.Some? && r.name != r.oldInstance.value.name then Finish(p, NameMismatch) else p.(pc := Client)
    case Client => p.(pc := if r.kind.Delete? then Exists else Lock, cleanups := p.cleanups + [CloseClient])
    case Exists => if reply == Present(true) then p.(pc := Lock) else Finish(p, NoKey)
    case Lock =>
      var q := p.(cleanups := p.cleanups + [CancelContext, CloseSession, Unlock]);
      if r.oldInstance.Some? then q.(pc := CheckExists) else AfterCheck(r, q)
    case LockFailed => Finish(p, Failed)
    case CheckExists => if reply == Present(true) then p.(pc := CheckValue) else Finish(p, InstanceNoExist)
    case CheckValue =>
      if !(reply.Fetched? && reply.value.Some?) then Finish(p, UnexpectedCount)
      else if r.oldInstance.Some? && reply.value.value != r.oldInstance.value.yaml then Finish(p, OldDiffers)
      else AfterCheck(r, p)
    case Load =>
      if reply.Fetched? && reply.value.Some? then p.(pc := WriteYaml, yaml := reply.value.value)
      else Finish(p, UnexpectedCount)
    case WriteYaml => p.(pc := WriteFile(0))
    case WriteFile(k) => p.(pc := if k < |r.files| then WriteFile(k + 1) else Tool)
    case Tool => p.(pc := Commit, validated := if reply.Built? then Some(reply.input) else None)
    case Commit => if r.kind.Apply? then p.(pc := PutFile(0)) else Finish(p, Ok)
    case PutFile(k) => if k < |r.files| then p.(pc := PutFile(k + 1)) else Finish(p, Ok)
    case Cleaning =>
      if p.cleanups == [] then p.(pc := Done) else p.(cleanups := p.cleanups[..|p.cleanups| - 1])
    case Done => p
  }

  // ------------------------------------------------------------------ machine

  /** A write of an instance key: the manifest it found and the manifest it left. */
  datatype Event = Event(request: nat, name: string, before: Option<string>, after: Option<string>)

  datatype Sys = Sys(env: Env, procs: seq<Proc>, log: seq<Event>)

  /** A request takes a step, or the lease of a finished request runs out. */
  datatype Action = Act(i: nat, c: Choice) | Expire(lock: string)

  predicate Enabled(reqs: seq<Request>, s: Sys, a: Action)
    requires |s.procs| == |reqs|
  {
    match a
    case Act(i, c) =>
      i < |reqs| && !s.procs[i].pc.Done? && CanServe(s.env, NextCall(reqs[i], s.procs[i]), c)
    case Expire(l) =>
      l in s.env.locks && s.env.locks[l] < |reqs| && s.procs[s.env.locks[l]].pc.Done?
  }

  function YamlOf(e: Option<Entry>): Option<string> {
    if e.Some? then Some(e.value.yaml) else None
  }

  /** The stored manifest of a name. */
  function YamlAt(kv: map<string, string>, name: string): Option<string> {
    if InstanceKey(name) in kv then Some(kv[InstanceKey(name)]) else None
  }

  /** The history variables of a commit whose first write took effect. */
  function Record(r: Request, e: Env, p: Proc, c: Choice, q: Proc): Proc {
    if p.pc.Commit? && !c.FailBefore? then q.(committed := true, base := EntryOf(e.kv, r.name)) else q
  }

  function Logged(r: Request, i: nat, e: Env, p: Proc, c: Choice): seq<Event> {
    if p.pc.Commit? && !c.FailBefore? then
      [Event(i, r.name, YamlAt(e.kv, r.name), if r.kind.Apply? then Some(p.yaml) else None)]
    else []
  }

  function Next(reqs: seq<Request>, s: Sys, a: Action): (t: Sys)
    requires |s.procs| == |reqs| && Enabled(reqs, s, a)
    ensures |t.procs| == |reqs|
  {
    match a
    case Act(i, c) =>
      var r, p := reqs[i], s.procs[i];
      var (env, reply) := Serve(s.env, i, NextCall(r, p), c);
      Sys(env,
          s.procs[i := Record(r, s.env, p, c, Resume(r, p, reply))],
          s.log + Logged(r, i, s.env, p, c))
    case Expire(l) => s.(env := s.env.(locks := s.env.locks - {l}))
  }

  /** A trace whose every action is enabled where it is taken. */
  predicate Legal(reqs: seq<Request>, s: Sys, trace: seq<Action>)
    requires |s.procs| == |reqs|
    decreases |trace|, 0
  {
    trace == [] ||
    var init := trace[..|trace| - 1];
    Legal(reqs, s, init) && Enabled(reqs, Exec(reqs, s, init), trace[|trace| - 1])
  }

  /** The state after a trace. */
  function Exec(reqs: seq<Request>, s: Sys, trace: seq<Action>): (t: Sys)
    requires |s.procs| == |reqs| && Legal(reqs, s, trace)
    ensures |t.procs| == |reqs|
    decreases |trace|, 1
  {
    if trace == [] then s
    else Next(reqs, Exec(reqs, s, trace[..|trace| - 1]), trace[|trace| - 1])
  }

  /** Nothing has run: every request is at its start, nothing is locked or logged. */
  ghost predicate Initial(reqs: seq<Request>, names: set<string>, s: Sys) {
    && |s.procs| == |reqs|
    && (forall i :: 0 <= i < |reqs| ==> s.procs[i] == NewProc(reqs[i]))
    && s.env.locks == map[]
    && s.log == []
    && NoOrphanFiles(s.env.kv, names)
  }

  /** The places a request writes on its server's disk. */
  function Targets(r: Request): set<Path> {
    {ManifestPath(r.Dir())} + set f | f in r.files :: FilePath(r.Dir(), f.name)
  }

  /** Two requests for different instances write different places of a disk they share. */
  predicate Apart(r: Request, other: Request) {
    r.name != other.name && r.server.id == other.server.id ==> Targets(r) !! Targets(other)
  }

  ghost predicate DisksApart(reqs: seq<Request>) {
    forall i, j {:trigger Apart(reqs[i], reqs[j])} :: 0 <= i < |reqs| && 0 <= j < |reqs| ==> Apart(reqs[i], reqs[j])
  }

  /**
   * All requests, and all stored instances the caller cares about, have clean names, and requests
   * for different instances keep apart on disk.
   */
  ghost predicate CleanRequests(reqs: seq<Request>, names: set<string>) {
    CleanNames(names) && (forall i :: 0 <= i < |reqs| ==> reqs[i].name in names) && DisksApart(reqs)
  }

  /** The name is one entry of the instances directory, and every file resolves to a place below the instance's. */
  predicate StaysInside(r: Request) {
    RealName(r.name) && forall f :: f in r.files ==> r.Dir() < FilePath(r.Dir(), f.name)
  }

  /** Requests that stay inside their own directories of one instances directory keep apart on disk. */
  lemma InsideKeepsApart(reqs: seq<Request>)
    requires forall i :: 0 <= i < |reqs| ==> StaysInside(reqs[i])
    requires forall i, j :: 0 <= i < |reqs| && 0 <= j < |reqs| && reqs[i].server.id == reqs[j].server.id
               ==> reqs[i].server.dir == reqs[j].server.dir
    ensures DisksApart(reqs)
  {
    forall i, j | 0 <= i < |reqs| && 0 <= j < |reqs| ensures Apart(reqs[i], reqs[j]) {
      forall p | p in Targets(reqs[i]) && p in Targets(reqs[j]) && reqs[i].server.id == reqs[j].server.id
        ensures reqs[i].name == reqs[j].name
      {
        TargetInside(reqs[i], p);
        TargetInside(reqs[j], p);
      }
    }
  }

  lemma TargetInside(r: Request, p: Path)
    requires StaysInside(r) && p in Targets(r)
    ensures |p| > |r.server.dir| && p[|r.server.dir|] == r.name
  {
    var name := [r.name];
    assert Real(name) && Join(name) == r.name;
    FilePathOfReal(r.server.dir, name);
    assert r.Dir() < p;
  }

  /** An instance named "." has the instances directory for its own, where its files may lie in another's directory. */
  lemma DotReachesOthers(name: string, file: string, r: Request, other: Request)
    requires RealName(name) && RealName(file)
    requires r.server == other.server && r.name == "." && other.name == name
    requires exists f :: f in r.files && f.name == name + "/" + file
    requires exists f :: f in other.files && f.name == file
    ensures !Apart(r, other)
  {
    var dir := r.server.dir;
    DotsDoNotCount(dir, "");
    NamesDescend(dir, name, file);
    NamesDescend(dir + [name], file, "");
    assert r.Dir() == dir && other.Dir() == dir + [name];
    assert dir + [name] + [file] in Targets(r) && dir + [name] + [file] in Targets(other);
  }
}
